/** services/vector_store.py over an in-memory bucket: each object under the
    key prefix "vectors/" holds one document's records, already decoded from
    JSON. */
module VectorStore {
  import opened Results
  import opened Vectors
  import opened Selection
  import opened Similarity

  /** One stored chunk: {"text": ..., "embedding": [...]}. */
  datatype Record = Record(text: string, embedding: Vector)

  /** The S3 bucket: object key to the decoded list of records. */
  type Bucket = map<string, seq<Record>>

  const Prefix: string := "vectors/"
  const Suffix: string := ".json"

  /** The object key of a document: f"vectors/{filename}.json". */
  function Key(filename: string): (k: string)
    ensures Prefix <= k
    ensures |k| == |Prefix| + |filename| + |Suffix|
    ensures k[|Prefix|..|Prefix| + |filename|] == filename
    ensures k[|Prefix| + |filename|..] == Suffix
  {
    Prefix + filename + Suffix
  }

  /** Different documents never share an object key. */
  lemma KeyInjective(f1: string, f2: string)
    ensures Key(f1) == Key(f2) ==> f1 == f2
  {
    if Key(f1) == Key(f2) {
      assert |f1| == |f2|;
      assert f1 == Key(f1)[|Prefix|..|Prefix| + |f1|];
    }
  }

  /** zip(chunks, embeddings): records pair up position by position and the
      longer list's tail is dropped. */
  function Zip(chunks: seq<string>, embeddings: seq<Vector>): (r: seq<Record>)
    ensures |r| == Min(|chunks|, |embeddings|)
    ensures forall i :: 0 <= i < |r| ==> r[i] == Record(chunks[i], embeddings[i])
  {
    if |chunks| == 0 || |embeddings| == 0 then []
    else [Record(chunks[0], embeddings[0])] + Zip(chunks[1..], embeddings[1..])
  }

  /** upload_document with `.tolist()` read as the identity: the document's
      object is (re)written and every other object is left alone. */
  function UploadDocument(bucket: Bucket, filename: string, chunks: seq<string>, embeddings: seq<Vector>): (b: Bucket)
    ensures Key(filename) in b && b[Key(filename)] == Zip(chunks, embeddings)
    ensures b.Keys == bucket.Keys + {Key(filename)}
    ensures forall k :: k in bucket && k != Key(filename) ==> b[k] == bucket[k]
  {
    bucket[Key(filename) := Zip(chunks, embeddings)]
  }

  /** Uploading a document name twice keeps only the second upload. */
  lemma LastWriteWins(bucket: Bucket, f: string, c1: seq<string>, e1: seq<Vector>, c2: seq<string>, e2: seq<Vector>)
    ensures UploadDocument(UploadDocument(bucket, f, c1, e1), f, c2, e2) == UploadDocument(bucket, f, c2, e2)
  {
  }

  /** Uploads of different document names do not interfere. */
  lemma UploadsCommute(bucket: Bucket, f1: string, c1: seq<string>, e1: seq<Vector>,
                                       f2: string, c2: seq<string>, e2: seq<Vector>)
    requires f1 != f2
    ensures UploadDocument(UploadDocument(bucket, f1, c1, e1), f2, c2, e2)
         == UploadDocument(UploadDocument(bucket, f2, c2, e2), f1, c1, e1)
  {
    KeyInjective(f1, f2);
  }

  /** An embedding as Python hands it to upload_document: a plain list, as
      generate_embedding returns, or a numpy array. */
  datatype PyEmbedding = PyList(values: Vector) | NdArray(values: Vector)

  /** `emb.tolist()`: defined on numpy arrays only; a plain list raises
      AttributeError. */
  function ToList(e: PyEmbedding): (r: Result<Vector>)
    ensures e.NdArray? <==> r.Ok?
    ensures r.Ok? ==> r.value == e.values
  {
    match e
    case NdArray(v) => Ok(v)
    case PyList(_) => Err(NoToList)
  }

  /** The list comprehension of upload_document as written: it builds the
      records pair by pair and stops at the first embedding without
      `.tolist()`. */
  function BuildRecords(chunks: seq<string>, embeddings: seq<PyEmbedding>): (r: Result<seq<Record>>)
    ensures r.Ok? <==> forall i :: 0 <= i < Min(|chunks|, |embeddings|) ==> embeddings[i].NdArray?
    ensures r.Ok? ==> |r.value| == Min(|chunks|, |embeddings|)
    ensures r.Ok? ==> forall i :: 0 <= i < |r.value| ==> r.value[i] == Record(chunks[i], embeddings[i].values)
  {
    if |chunks| == 0 || |embeddings| == 0 then Ok([])
    else
      var v :- ToList(embeddings[0]);
      var rest :- BuildRecords(chunks[1..], embeddings[1..]);
      Ok([Record(chunks[0], v)] + rest)
  }

  /** upload_document exactly as written: the put happens only when every
      zipped embedding converts. */
  function UploadDocumentAsWritten(bucket: Bucket, filename: string, chunks: seq<string>,
                                   embeddings: seq<PyEmbedding>): (r: Result<Bucket>)
    ensures r.Ok? <==> forall i :: 0 <= i < Min(|chunks|, |embeddings|) ==> embeddings[i].NdArray?
    ensures r.Ok? ==> Key(filename) in r.value && |r.value[Key(filename)]| == Min(|chunks|, |embeddings|)
    ensures r.Ok? ==> forall i :: 0 <= i < Min(|chunks|, |embeddings|) ==>
              r.value[Key(filename)][i] == Record(chunks[i], embeddings[i].values)
    ensures r.Ok? ==> r.value.Keys == bucket.Keys + {Key(filename)}
    ensures r.Ok? ==> forall k :: k in bucket && k != Key(filename) ==> r.value[k] == bucket[k]
  {
    var records :- BuildRecords(chunks, embeddings);
    Ok(bucket[Key(filename) := records])
  }

  /** What list_objects_v2(Prefix="vectors/") enumerates: every object under
      the prefix, each exactly once, in the store's own order. */
  predicate IsListing(bucket: Bucket, listing: seq<string>)
  {
    && (forall i :: 0 <= i < |listing| ==> listing[i] in bucket && Prefix <= listing[i])
    && (forall key :: key in bucket && Prefix <= key ==> key in listing)
    && (forall i, j :: 0 <= i < j < |listing| ==> listing[i] != listing[j])
  }

  /** The records of the listed objects, concatenated in listing order. */
  function Gather(bucket: Bucket, listing: seq<string>): seq<Record>
    requires forall i :: 0 <= i < |listing| ==> listing[i] in bucket
  {
    if listing == [] then [] else bucket[listing[0]] + Gather(bucket, listing[1..])
  }

  /** A record is gathered exactly when some listed object holds it. */
  lemma {:induction false} GatherMembership(bucket: Bucket, listing: seq<string>, r: Record)
    requires forall i :: 0 <= i < |listing| ==> listing[i] in bucket
    ensures r in Gather(bucket, listing) <==> exists i :: 0 <= i < |listing| && r in bucket[listing[i]]
  {
    if listing != [] {
      GatherMembership(bucket, listing[1..], r);
      if r in Gather(bucket, listing[1..]) {
        var i :| 0 <= i < |listing[1..]| && r in bucket[listing[1..][i]];
        assert listing[1..][i] == listing[i + 1];
      }
      if exists i :: 0 <= i < |listing| && r in bucket[listing[i]] {
        var i :| 0 <= i < |listing| && r in bucket[listing[i]];
        if i > 0 {
          assert listing[i] == listing[1..][i - 1];
        }
      }
    }
  }

  function TextsOf(rs: seq<Record>): (ts: seq<string>)
    ensures |ts| == |rs| && forall k :: 0 <= k < |rs| ==> ts[k] == rs[k].text
  {
    seq(|rs|, k requires 0 <= k < |rs| => rs[k].text)
  }

  function EmbeddingsOf(rs: seq<Record>): (es: seq<Vector>)
    ensures |es| == |rs| && forall k :: 0 <= k < |rs| ==> es[k] == rs[k].embedding
  {
    seq(|rs|, k requires 0 <= k < |rs| => rs[k].embedding)
  }

  lemma ProjectionsAppend(xs: seq<Record>, ys: seq<Record>)
    ensures TextsOf(xs + ys) == TextsOf(xs) + TextsOf(ys)
    ensures EmbeddingsOf(xs + ys) == EmbeddingsOf(xs) + EmbeddingsOf(ys)
  {
    assert forall k :: 0 <= k < |xs + ys| ==> TextsOf(xs + ys)[k] == (TextsOf(xs) + TextsOf(ys))[k];
    assert forall k :: 0 <= k < |xs + ys| ==> EmbeddingsOf(xs + ys)[k] == (EmbeddingsOf(xs) + EmbeddingsOf(ys))[k];
  }

  /** all_texts and all_embeddings of search_vectors. */
  datatype Candidates = Candidates(texts: seq<string>, embeddings: seq<Vector>)

  /** The loop of search_vectors, blob by blob: the two parallel lists are
      the texts and the embeddings of one and the same record sequence, so
      position k of both comes from one stored record. */
  function Collect(bucket: Bucket, listing: seq<string>): (c: Candidates)
    requires forall i :: 0 <= i < |listing| ==> listing[i] in bucket
    ensures c.texts == TextsOf(Gather(bucket, listing))
    ensures c.embeddings == EmbeddingsOf(Gather(bucket, listing))
  {
    if listing == [] then Candidates([], [])
    else
      var items := bucket[listing[0]];
      var rest := Collect(bucket, listing[1..]);
      ProjectionsAppend(items, Gather(bucket, listing[1..]));
      Candidates(TextsOf(items) + rest.texts, EmbeddingsOf(items) + rest.embeddings)
  }

  /** Some stored object under the prefix holds a record with this text. */
  ghost predicate Stored(bucket: Bucket, t: string)
  {
    exists key, j :: key in bucket && Prefix <= key && 0 <= j < |bucket[key]| && bucket[key][j].text == t
  }

  /** search_vectors: [] on an empty corpus without scoring anything;
      otherwise the texts of the selector's rows, in the selector's order. */
  function SearchVectors(norm: Vector -> real, bucket: Bucket, listing: seq<string>,
                         query: Vector, topN: nat): (r: Result<seq<string>>)
    requires ValidNorm(norm) && IsListing(bucket, listing)
    ensures Gather(bucket, listing) == [] ==> r == Ok([])
    ensures r.Err? <==>
              && Gather(bucket, listing) != []
              && (|| !Rectangular(EmbeddingsOf(Gather(bucket, listing)))
                  || |query| != |Gather(bucket, listing)[0].embedding|)
    ensures r.Ok? ==> |r.value| == Min(topN, |Gather(bucket, listing)|)
    ensures r.Ok? ==> forall k :: 0 <= k < |r.value| ==> Stored(bucket, r.value[k])
    ensures r.Ok? && Gather(bucket, listing) != [] ==>
              var ms := TopNSimilar(norm, query, Nested(EmbeddingsOf(Gather(bucket, listing))), topN);
              ms.Ok? && |ms.value| == |r.value| &&
              forall k :: 0 <= k < |r.value| ==>
                ms.value[k].index < |Gather(bucket, listing)| &&
                r.value[k] == Gather(bucket, listing)[ms.value[k].index].text
  {
    var cands := Collect(bucket, listing);
    if |cands.embeddings| == 0 then Ok([])
    else
      var ms := TopNSimilar(norm, query, Nested(cands.embeddings), topN);
      SearchErrors(norm, bucket, listing, query, topN);
      if ms.Err? then Err(ms.error)
      else
        var texts := Pick(cands.texts, ms.value);
        SearchHit(bucket, listing, topN, ms.value, texts);
        Ok(texts)
  }

  /** The selector over the gathered embeddings fails exactly when they are
      ragged or their width is not the query's. */
  lemma SearchErrors(norm: Vector -> real, bucket: Bucket, listing: seq<string>, query: Vector, topN: nat)
    requires ValidNorm(norm) && IsListing(bucket, listing)
    requires Gather(bucket, listing) != []
    ensures TopNSimilar(norm, query, Nested(EmbeddingsOf(Gather(bucket, listing))), topN).Err? <==>
              || !Rectangular(EmbeddingsOf(Gather(bucket, listing)))
              || |query| != |Gather(bucket, listing)[0].embedding|
  {
    var es := EmbeddingsOf(Gather(bucket, listing));
    assert Rows(Nested(es)) == es;
    assert Width(Nested(es)) == |Gather(bucket, listing)[0].embedding|;
  }

  /** Picking the texts of min(top_n, N) selected rows yields that many
      stored texts, those of the selected rows in the selector's order. */
  lemma SearchHit(bucket: Bucket, listing: seq<string>, topN: nat, ms: seq<Match>, texts: seq<string>)
    requires IsListing(bucket, listing)
    requires Gather(bucket, listing) != []
    requires |ms| == Min(topN, |Gather(bucket, listing)|)
    requires |texts| == |ms|
    requires forall k :: 0 <= k < |ms| ==>
               ms[k].index < |Gather(bucket, listing)| &&
               texts[k] == TextsOf(Gather(bucket, listing))[ms[k].index]
    ensures |texts| == Min(topN, |Gather(bucket, listing)|)
    ensures forall k :: 0 <= k < |texts| ==> Stored(bucket, texts[k])
    ensures forall k :: 0 <= k < |texts| ==> texts[k] == Gather(bucket, listing)[ms[k].index].text
  {
    ResultsAreStored(bucket, listing, Indices(ms), texts);
  }

  /** [all_texts[idx] for idx, _ in top_matches] */
  function Pick(texts: seq<string>, ms: seq<Match>): (r: seq<string>)
    requires forall k :: 0 <= k < |ms| ==> ms[k].index < |texts|
    ensures |r| == |ms|
    ensures forall k :: 0 <= k < |ms| ==> r[k] == texts[ms[k].index]
  {
    seq(|ms|, k requires 0 <= k < |ms| => texts[ms[k].index])
  }

  lemma ResultsAreStored(bucket: Bucket, listing: seq<string>, ix: seq<nat>, texts: seq<string>)
    requires IsListing(bucket, listing)
    requires forall k :: 0 <= k < |ix| ==> ix[k] < |Gather(bucket, listing)|
    requires |texts| == |ix|
    requires forall k :: 0 <= k < |ix| ==> texts[k] == Gather(bucket, listing)[ix[k]].text
    ensures forall k :: 0 <= k < |texts| ==> Stored(bucket, texts[k])
  {
    forall k | 0 <= k < |texts| ensures Stored(bucket, texts[k]) {
      var rec := Gather(bucket, listing)[ix[k]];
      GatherMembership(bucket, listing, rec);
      var i :| 0 <= i < |listing| && rec in bucket[listing[i]];
      var j :| 0 <= j < |bucket[listing[i]]| && bucket[listing[i]][j] == rec;
    }
  }

  /** A document uploaded under any name is found by the next search: every
      record of it is among the candidates. */
  lemma UploadedIsSearchable(bucket: Bucket, filename: string, chunks: seq<string>,
                             embeddings: seq<Vector>, listing: seq<string>)
    requires IsListing(UploadDocument(bucket, filename, chunks, embeddings), listing)
    ensures forall i :: 0 <= i < Min(|chunks|, |embeddings|) ==>
              Record(chunks[i], embeddings[i]) in Gather(UploadDocument(bucket, filename, chunks, embeddings), listing)
  {
    var b := UploadDocument(bucket, filename, chunks, embeddings);
    var key := Key(filename);
    assert key in listing;
    var p :| 0 <= p < |listing| && listing[p] == key;
    forall i | 0 <= i < Min(|chunks|, |embeddings|)
      ensures Record(chunks[i], embeddings[i]) in Gather(b, listing)
    {
      var rec := Record(chunks[i], embeddings[i]);
      assert b[listing[p]][i] == rec;
      GatherMembership(b, listing, rec);
    }
  }
}
