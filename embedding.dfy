/** Document ingestion (src/data/embedding.py): every stored document under the
    documents prefix is partitioned into text elements, the non-empty element texts
    are joined with newlines, the text is cut into slices of 1000 characters, and each
    slice becomes one row with the document's name, the slice and its embedding.

    Listing the bucket is the sequence of blob names; what the partitioner extracts
    from a downloaded blob is the parameter `elementsOf`, and the embedding model is
    `embed`. Downloading, printing and the final insert are not modelled. */
module Ingestion {
  import opened Strings

  const ChunkSize := 1000

  /** One row for the warehouse table. */
  datatype Row = Row(docId: string, fragment: string, embedding: seq<real>)

  /** Python's `name.endswith("/")`: the blob is a directory marker. */
  predicate IsDirectory(name: string) {
    |name| > 0 && name[|name| - 1] == '/'
  }

  /** The local file a blob is downloaded to. */
  function LocalPath(name: string): (p: string)
    ensures |p| >= 5 && p[..5] == "/tmp/"
    ensures |p| - 5 <= |name| && p[5..] == name[|name| - (|p| - 5)..]
    ensures '/' !in p[5..]
    ensures |p| - 5 < |name| ==> name[|name| - (|p| - 5) - 1] == '/'
  {
    "/tmp/" + LastSegment(name, '/')
  }

  /** The element texts that are not empty, in element order. */
  function NonEmptyTexts(texts: seq<string>): (r: seq<string>)
    ensures forall t :: t in r <==> t in texts && t != ""
    ensures |r| <= |texts|
  {
    if |texts| == 0 then []
    else if texts[0] == "" then NonEmptyTexts(texts[1..])
    else [texts[0]] + NonEmptyTexts(texts[1..])
  }

  /** Keeping the non-empty texts goes element by element: texts added at the end are
      kept at the end, in order. */
  lemma {:induction false} NonEmptyTextsAppend(a: seq<string>, b: seq<string>)
    ensures NonEmptyTexts(a + b) == NonEmptyTexts(a) + NonEmptyTexts(b)
    decreases |a|
  {
    if |a| > 0 {
      var ab := a + b;
      assert ab[0] == a[0];
      assert ab[1..] == a[1..] + b;
      NonEmptyTextsAppend(a[1..], b);
      if a[0] == "" {
        assert NonEmptyTexts(ab) == NonEmptyTexts(ab[1..]);
        assert NonEmptyTexts(a) == NonEmptyTexts(a[1..]);
      } else {
        assert NonEmptyTexts(ab) == [a[0]] + NonEmptyTexts(ab[1..]);
        assert NonEmptyTexts(a) == [a[0]] + NonEmptyTexts(a[1..]);
      }
    } else {
      assert a + b == b;
    }
  }

  /** The document text: the non-empty element texts joined with a newline. */
  function JoinTexts(texts: seq<string>): string {
    Join("\n", NonEmptyTexts(texts))
  }

  /** The text cut into consecutive slices of `ChunkSize` characters, the last one
      possibly shorter. */
  function Chunks(text: string): (r: seq<string>)
    ensures |r| * ChunkSize >= |text|
    ensures |r| > 0 ==> (|r| - 1) * ChunkSize < |text|
    ensures forall k :: 0 <= k < |r| ==> 0 < |r[k]| <= ChunkSize
    ensures forall k :: 0 <= k < |r| - 1 ==> |r[k]| == ChunkSize
  {
    var n := (|text| + ChunkSize - 1) / ChunkSize;
    seq(n, k requires 0 <= k < n =>
             text[k * ChunkSize..if (k + 1) * ChunkSize <= |text| then (k + 1) * ChunkSize else |text|])
  }

  /** A text longer than one slice is its first slice followed by the slices of the rest. */
  lemma ChunksStep(text: string)
    requires |text| > ChunkSize
    ensures Chunks(text) == [text[..ChunkSize]] + Chunks(text[ChunkSize..])
  {
    var c, d := Chunks(text), Chunks(text[ChunkSize..]);
    assert |c| == |d| + 1;
    var rest := text[ChunkSize..];
    forall k | 0 < k < |c| ensures c[k] == d[k - 1] {
      var lo := k * ChunkSize;
      var hi := if (k + 1) * ChunkSize <= |text| then (k + 1) * ChunkSize else |text|;
      assert c[k] == text[lo..hi];
      assert d[k - 1] == rest[lo - ChunkSize..hi - ChunkSize];
      forall x | 0 <= x < hi - lo ensures rest[lo - ChunkSize..hi - ChunkSize][x] == text[lo..hi][x] {
        assert rest[lo - ChunkSize + x] == text[lo + x];
      }
    }
  }

  /** Slicing loses and repeats nothing: the slices concatenate back to the text, and an
      empty text gives no slices. */
  lemma {:induction false} ChunksConcat(text: string)
    ensures Concat(Chunks(text)) == text
    ensures |Chunks(text)| == 0 <==> text == ""
    decreases |text|
  {
    if |text| > ChunkSize {
      ChunksStep(text);
      ChunksConcat(text[ChunkSize..]);
      assert Chunks(text)[1..] == Chunks(text[ChunkSize..]);
      assert text == text[..ChunkSize] + text[ChunkSize..];
    } else if |text| > 0 {
      assert |Chunks(text)| == 1;
      assert Chunks(text)[0] == text[0..|text|];
      assert text[0..|text|] == text;
      assert Chunks(text) == [text];
    }
  }

  /** The rows of one blob: none for a directory marker, otherwise one per slice of
      its text, in order. */
  function BlobRows(name: string, elementsOf: string -> seq<string>, embed: string -> seq<real>): seq<Row> {
    if IsDirectory(name) then []
    else
      var chunks := Chunks(JoinTexts(elementsOf(name)));
      seq(|chunks|, k requires 0 <= k < |chunks| => Row(name, chunks[k], embed(chunks[k])))
  }

  /** The rows of all blobs, blob after blob. */
  function RowsOf(blobs: seq<string>, elementsOf: string -> seq<string>, embed: string -> seq<real>): seq<Row>
    decreases |blobs|
  {
    if |blobs| == 0 then []
    else RowsOf(blobs[..|blobs| - 1], elementsOf, embed) + BlobRows(blobs[|blobs| - 1], elementsOf, embed)
  }

  /** The rows of a blob carry its name and each slice's embedding, and their fragments
      concatenate back to the blob's text. */
  lemma BlobRowsFragments(name: string, elementsOf: string -> seq<string>, embed: string -> seq<real>)
    requires !IsDirectory(name)
    ensures var rows := BlobRows(name, elementsOf, embed);
            && Concat(seq(|rows|, k requires 0 <= k < |rows| => rows[k].fragment)) == JoinTexts(elementsOf(name))
            && forall k :: 0 <= k < |rows| ==> rows[k].docId == name && rows[k].embedding == embed(rows[k].fragment)
  {
    var rows := BlobRows(name, elementsOf, embed);
    ChunksConcat(JoinTexts(elementsOf(name)));
    assert seq(|rows|, k requires 0 <= k < |rows| => rows[k].fragment) == Chunks(JoinTexts(elementsOf(name)));
  }

  /** Rows come in blob order: the rows of two listings one after the other are the rows
      of the first followed by the rows of the second. */
  lemma {:induction false} RowsOfConcat(a: seq<string>, b: seq<string>,
                                        elementsOf: string -> seq<string>, embed: string -> seq<real>)
    ensures RowsOf(a + b, elementsOf, embed) == RowsOf(a, elementsOf, embed) + RowsOf(b, elementsOf, embed)
    decreases |b|
  {
    if |b| == 0 {
      assert a + b == a;
    } else {
      var b', last := b[..|b| - 1], b[|b| - 1];
      assert (a + b)[..|a + b| - 1] == a + b';
      assert (a + b)[|a + b| - 1] == last;
      assert RowsOf(a + b, elementsOf, embed)
          == RowsOf(a + b', elementsOf, embed) + BlobRows(last, elementsOf, embed);
      assert RowsOf(b, elementsOf, embed) == RowsOf(b', elementsOf, embed) + BlobRows(last, elementsOf, embed);
      RowsOfConcat(a, b', elementsOf, embed);
    }
  }

  /** Every row names a listed blob that is not a directory marker. */
  lemma {:induction false} RowsFromFiles(blobs: seq<string>, elementsOf: string -> seq<string>,
                                         embed: string -> seq<real>)
    ensures forall r :: r in RowsOf(blobs, elementsOf, embed) ==> r.docId in blobs && !IsDirectory(r.docId)
    decreases |blobs|
  {
    if |blobs| > 0 {
      RowsFromFiles(blobs[..|blobs| - 1], elementsOf, embed);
      assert forall x :: x in blobs[..|blobs| - 1] ==> x in blobs;
    }
  }

  /** `document_processing`, up to the insert: the rows, built blob by blob and slice by
      slice. */
  method DocumentProcessing(blobs: seq<string>, elementsOf: string -> seq<string>, embed: string -> seq<real>)
    returns (rows: seq<Row>)
    ensures rows == RowsOf(blobs, elementsOf, embed)
  {
    rows := [];
    var i := 0;
    while i < |blobs|
      invariant 0 <= i <= |blobs|
      invariant rows == RowsOf(blobs[..i], elementsOf, embed)
    {
      var name := blobs[i];
      assert blobs[..i + 1][..i] == blobs[..i];
      if IsDirectory(name) {
        i := i + 1;
        continue;
      }
      var texto := JoinTexts(elementsOf(name));
      var chunks := Chunks(texto);
      var j := 0;
      while j < |chunks|
        invariant 0 <= j <= |chunks|
        invariant rows == RowsOf(blobs[..i], elementsOf, embed) + BlobRows(name, elementsOf, embed)[..j]
      {
        var chunk := chunks[j];
        assert BlobRows(name, elementsOf, embed)[..j + 1] == BlobRows(name, elementsOf, embed)[..j] + [Row(name, chunk, embed(chunk))];
        rows := rows + [Row(name, chunk, embed(chunk))];
        j := j + 1;
      }
      assert BlobRows(name, elementsOf, embed)[..j] == BlobRows(name, elementsOf, embed);
      i := i + 1;
    }
    assert blobs[..i] == blobs;
  }
}
