/** The pure slice of main.py: the context and prompt that `chat` builds,
    the reply of the search endpoint, and `process_and_upload`. The
    embedding and language-model providers are function parameters. */
module App {
  import opened Results
  import opened Vectors
  import opened Selection
  import opened VectorStore

  /** search_vectors' default top_n, which `chat` relies on. */
  const DefaultTopN: nat := 3
  const NoContext: string := "No relevant documents found."
  const Preamble: string := "Use the following context to answer the question:\n\n"
  const QuestionLabel: string := "\n\nQuestion: "

  /** "\n".join(chunks) */
  function Join(chunks: seq<string>): string
  {
    if |chunks| == 0 then ""
    else if |chunks| == 1 then chunks[0]
    else chunks[0] + "\n" + Join(chunks[1..])
  }

  /** Where chunk `k` starts in the newline join: each earlier chunk and its
      newline come before it. */
  function Offset(chunks: seq<string>, k: nat): nat
    requires k <= |chunks|
  {
    if k == 0 then 0 else Offset(chunks, k - 1) + |chunks[k - 1]| + 1
  }

  /** Dropping the first chunk moves every later start back by that chunk
      and its newline. */
  lemma {:induction false} OffsetShift(chunks: seq<string>, k: nat)
    requires 1 <= k <= |chunks|
    ensures Offset(chunks, k) == |chunks[0]| + 1 + Offset(chunks[1..], k - 1)
  {
    if k > 1 {
      OffsetShift(chunks, k - 1);
      assert chunks[1..][k - 2] == chunks[k - 1];
    }
  }

  /** The newline join is as long as its chunks and the newlines between
      them. */
  lemma {:induction false} JoinLength(chunks: seq<string>)
    requires |chunks| >= 1
    ensures |Join(chunks)| + 1 == Offset(chunks, |chunks|)
  {
    if |chunks| > 1 {
      JoinLength(chunks[1..]);
      OffsetShift(chunks, |chunks|);
    }
  }

  /** Chunk k of "\n".join(chunks) sits at Offset(chunks, k), and a newline
      follows it unless it is the last. */
  lemma {:induction false} JoinChunk(chunks: seq<string>, k: nat)
    requires k < |chunks|
    ensures Offset(chunks, k) + |chunks[k]| <= |Join(chunks)|
    ensures Join(chunks)[Offset(chunks, k)..Offset(chunks, k) + |chunks[k]|] == chunks[k]
    ensures k < |chunks| - 1 ==>
              Offset(chunks, k) + |chunks[k]| < |Join(chunks)| &&
              Join(chunks)[Offset(chunks, k) + |chunks[k]|] == '\n'
  {
    if |chunks| > 1 {
      var a, rest := chunks[0], chunks[1..];
      var b := Join(rest);
      assert Join(chunks) == a + "\n" + b;
      JoinPieces(a, b);
      if k > 0 {
        JoinChunk(rest, k - 1);
        OffsetShift(chunks, k);
        assert rest[k - 1] == chunks[k];
        AfterNewline(a, b, Offset(rest, k - 1), |chunks[k]|);
      }
    }
  }

  /** The three pieces of a + "\n" + b. */
  lemma JoinPieces(a: string, b: string)
    ensures (a + "\n" + b)[..|a|] == a
    ensures (a + "\n" + b)[|a|] == '\n'
    ensures (a + "\n" + b)[|a| + 1..] == b
  {
  }

  /** A slice of `b` read through a + "\n" + b, and the character after it. */
  lemma AfterNewline(a: string, b: string, o: nat, len: nat)
    requires o + len <= |b|
    ensures (a + "\n" + b)[|a| + 1 + o..|a| + 1 + o + len] == b[o..o + len]
    ensures o + len < |b| ==> (a + "\n" + b)[|a| + 1 + o + len] == b[o + len]
  {
    var s := a + "\n" + b;
    assert s[|a| + 1..] == b;
    assert s[|a| + 1 + o..|a| + 1 + o + len] == s[|a| + 1..][o..o + len];
  }

  /** `r` is "\n".join(chunks) for a non-empty list of any chunks, newlines
      inside them included: every chunk at its offset, a newline after each
      but the last, and nothing else. */
  predicate Joined(r: string, chunks: seq<string>)
  {
    && |chunks| >= 1
    && |r| + 1 == Offset(chunks, |chunks|)
    && (forall k :: 0 <= k < |chunks| ==>
          Offset(chunks, k) + |chunks[k]| <= |r| &&
          r[Offset(chunks, k)..Offset(chunks, k) + |chunks[k]|] == chunks[k])
    && (forall k :: 0 <= k < |chunks| - 1 ==>
          Offset(chunks, k) + |chunks[k]| < |r| && r[Offset(chunks, k) + |chunks[k]|] == '\n')
  }

  /** Join meets the layout of "\n".join on every non-empty chunk list. */
  lemma JoinLayout(chunks: seq<string>)
    requires |chunks| >= 1
    ensures Joined(Join(chunks), chunks)
  {
    JoinLength(chunks);
    forall k | 0 <= k < |chunks|
      ensures Offset(chunks, k) + |chunks[k]| <= |Join(chunks)|
      ensures Join(chunks)[Offset(chunks, k)..Offset(chunks, k) + |chunks[k]|] == chunks[k]
      ensures k < |chunks| - 1 ==>
                Offset(chunks, k) + |chunks[k]| < |Join(chunks)| &&
                Join(chunks)[Offset(chunks, k) + |chunks[k]|] == '\n'
    {
      JoinChunk(chunks, k);
    }
  }

  /** Position of the first occurrence of `c`. */
  function IndexOf(s: string, c: char): (i: nat)
    requires c in s
    ensures i < |s| && s[i] == c
    ensures forall k :: 0 <= k < i ==> s[k] != c
  {
    if s[0] == c then 0
    else
      assert c in s[1..] by { var j :| 0 <= j < |s| && s[j] == c; assert s[1..][j - 1] == c; }
      IndexOf(s[1..], c) + 1
  }

  /** str.split("\n"): the reference reading of a joined context. */
  function Split(s: string): (parts: seq<string>)
    ensures |parts| >= 1
    decreases |s|
  {
    if '\n' !in s then [s]
    else
      var i := IndexOf(s, '\n');
      [s[..i]] + Split(s[i + 1..])
  }

  predicate NoNewlines(chunks: seq<string>)
  {
    forall k :: 0 <= k < |chunks| ==> '\n' !in chunks[k]
  }

  /** The first newline of a + "\n" + b is the one between them, when `a`
      has none. */
  lemma IndexOfJoint(a: string, b: string)
    requires '\n' !in a
    ensures '\n' in a + "\n" + b
    ensures IndexOf(a + "\n" + b, '\n') == |a|
  {
    var s := a + "\n" + b;
    assert s[|a|] == '\n';
  }

  /** Joining newline-free chunks and splitting the result at newlines gives
      the chunks back: the context keeps every chunk, whole and in order. */
  lemma {:induction false} SplitJoin(chunks: seq<string>)
    requires |chunks| >= 1
    ensures NoNewlines(chunks) ==> Split(Join(chunks)) == chunks
  {
    if |chunks| > 1 && NoNewlines(chunks) {
      var a, rest := chunks[0], chunks[1..];
      assert Join(chunks) == a + "\n" + Join(rest);
      assert '\n' !in a;
      SplitCons(a, Join(rest));
      assert NoNewlines(rest) by {
        forall k | 0 <= k < |rest| ensures '\n' !in rest[k] {
          assert rest[k] == chunks[k + 1];
        }
      }
      SplitJoin(rest);
      assert chunks == [a] + rest;
    }
  }

  /** Splitting a + "\n" + b, with no newline in `a`, yields `a` first and
      then the split of `b`. */
  lemma SplitCons(a: string, b: string)
    requires '\n' !in a
    ensures Split(a + "\n" + b) == [a] + Split(b)
  {
    IndexOfJoint(a, b);
    JoinPieces(a, b);
  }

  /** context_str of `chat`: the fixed sentence when nothing was retrieved,
      otherwise the chunks joined by newlines. */
  function ContextString(chunks: seq<string>): (r: string)
    ensures chunks == [] ==> r == NoContext
    ensures chunks != [] && NoNewlines(chunks) ==> Split(r) == chunks
    ensures |chunks| == 1 ==> r == chunks[0]
    ensures chunks != [] ==> Joined(r, chunks)
  {
    if chunks == [] then NoContext
    else
      SplitJoin(chunks);
      JoinLayout(chunks);
      Join(chunks)
  }

  /** The prompt of `chat`. */
  function Prompt(context: string, message: string): (r: string)
    ensures |r| == |Preamble| + |context| + |QuestionLabel| + |message|
    ensures r[..|Preamble|] == Preamble
    ensures r[|Preamble|..|Preamble| + |context|] == context
    ensures r[|Preamble| + |context|..] == QuestionLabel + message
  {
    Preamble + context + QuestionLabel + message
  }

  /** The preamble and label are fixed, so a prompt determines the context
      of a given length and the message that produced it. */
  lemma PromptInjective(c1: string, m1: string, c2: string, m2: string)
    requires |c1| == |c2| && Prompt(c1, m1) == Prompt(c2, m2)
    ensures c1 == c2 && m1 == m2
  {
    var p := Prompt(c1, m1);
    assert c1 == p[|Preamble|..|Preamble| + |c1|] == c2;
    assert QuestionLabel + m1 == p[|Preamble| + |c1|..] == QuestionLabel + m2;
    assert m1 == (QuestionLabel + m1)[|QuestionLabel|..];
  }

  datatype ChatReply = ChatReply(answer: string, contextUsed: seq<string>)

  /** The `chat` endpoint: embed the message, retrieve the default number of
      chunks, prompt the model with them. A failing retrieval is the
      endpoint's error. */
  function Chat(norm: Vector -> real, embed: string -> Vector, complete: string -> string,
                bucket: Bucket, listing: seq<string>, message: string): (r: Result<ChatReply>)
    requires ValidNorm(norm) && IsListing(bucket, listing)
    ensures r.Ok? <==> SearchVectors(norm, bucket, listing, embed(message), DefaultTopN).Ok?
    ensures r.Ok? ==> r.value.contextUsed == SearchVectors(norm, bucket, listing, embed(message), DefaultTopN).value
    ensures r.Ok? ==> |r.value.contextUsed| <= DefaultTopN
    ensures r.Ok? ==> r.value.answer == complete(Prompt(ContextString(r.value.contextUsed), message))
    ensures Gather(bucket, listing) == [] ==>
              r == Ok(ChatReply(complete(Preamble + NoContext + QuestionLabel + message), []))
  {
    var chunks :- SearchVectors(norm, bucket, listing, embed(message), DefaultTopN);
    Ok(ChatReply(complete(Prompt(ContextString(chunks), message)), chunks))
  }

  datatype SearchReply = SearchReply(results: seq<string>, count: nat)

  /** The search endpoint: the retrieved texts and their number. */
  function Search(norm: Vector -> real, embed: string -> Vector, bucket: Bucket, listing: seq<string>,
                  query: string, topN: nat): (r: Result<SearchReply>)
    requires ValidNorm(norm) && IsListing(bucket, listing)
    ensures r.Err? <==> SearchVectors(norm, bucket, listing, embed(query), topN).Err?
    ensures r.Ok? ==> r.value.results == SearchVectors(norm, bucket, listing, embed(query), topN).value
    ensures r.Ok? ==> r.value.count == |r.value.results|
    ensures r.Ok? ==> r.value.count == Min(topN, |Gather(bucket, listing)|)
  {
    var results :- SearchVectors(norm, bucket, listing, embed(query), topN);
    Ok(SearchReply(results, |results|))
  }

  /** [generate_embedding(chunk) for chunk in chunks] */
  function EmbedAll(embed: string -> Vector, chunks: seq<string>): (es: seq<Vector>)
    ensures |es| == |chunks|
    ensures forall i :: 0 <= i < |chunks| ==> es[i] == embed(chunks[i])
  {
    seq(|chunks|, i requires 0 <= i < |chunks| => embed(chunks[i]))
  }

  /** process_and_upload with the intended identity conversion: one record
      per chunk, in order, each with that chunk's embedding; zip drops
      nothing because the lists have equal length. */
  function ProcessAndUpload(embed: string -> Vector, bucket: Bucket, filename: string,
                            chunks: seq<string>): (b: Bucket)
    ensures Key(filename) in b && |b[Key(filename)]| == |chunks|
    ensures forall i :: 0 <= i < |chunks| ==> b[Key(filename)][i] == Record(chunks[i], embed(chunks[i]))
    ensures b.Keys == bucket.Keys + {Key(filename)}
    ensures forall k :: k in bucket && k != Key(filename) ==> b[k] == bucket[k]
  {
    UploadDocument(bucket, filename, chunks, EmbedAll(embed, chunks))
  }

  /** process_and_upload as written: generate_embedding returns plain lists,
      and upload_document calls `.tolist()` on each of them. */
  function ProcessAndUploadAsWritten(embed: string -> Vector, bucket: Bucket, filename: string,
                                     chunks: seq<string>): (r: Result<Bucket>)
    ensures r.Ok? ==> Key(filename) in r.value && |r.value[Key(filename)]| == |chunks|
  {
    var lists := seq(|chunks|, i requires 0 <= i < |chunks| => PyList(embed(chunks[i])));
    UploadDocumentAsWritten(bucket, filename, chunks, lists)
  }

  /** Every non-empty upload fails before anything is written; only an
      empty chunk list gets stored. */
  lemma AsWrittenUploadFails(embed: string -> Vector, bucket: Bucket, filename: string, chunks: seq<string>)
    ensures |chunks| > 0 ==> ProcessAndUploadAsWritten(embed, bucket, filename, chunks) == Err(NoToList)
    ensures |chunks| == 0 ==> ProcessAndUploadAsWritten(embed, bucket, filename, chunks) == Ok(bucket[Key(filename) := []])
  {
  }
}
