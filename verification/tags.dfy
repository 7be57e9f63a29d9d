/**
 * The tag row of the result card: the comma-separated tag text is split on
 * commas, every piece is trimmed, and the pieces left empty are dropped.
 */
module Tags {
  import opened Strings

  /** `parts.map(t => t.trim())`: each piece trimmed, in place. */
  function TrimAll(parts: seq<string>): (r: seq<string>)
    ensures |r| == |parts|
    ensures forall i :: 0 <= i < |r| ==> r[i] == Trim(parts[i])
  {
    if |parts| == 0 then [] else [Trim(parts[0])] + TrimAll(parts[1..])
  }

  /** `ts.filter(t => t)`: the empty strings dropped, every other string kept. */
  function DropEmpty(ts: seq<string>): (r: seq<string>)
    ensures |r| <= |ts|
    ensures forall t :: t in r <==> t in ts && t != ""
  {
    if |ts| == 0 then []
    else if ts[0] == "" then DropEmpty(ts[1..])
    else [ts[0]] + DropEmpty(ts[1..])
  }

  /** Trimming distributes over concatenation. */
  lemma TrimAllAppend(x: seq<string>, y: seq<string>)
    ensures TrimAll(x + y) == TrimAll(x) + TrimAll(y)
  {
    assert forall i :: 0 <= i < |x + y| ==> TrimAll(x + y)[i] == (TrimAll(x) + TrimAll(y))[i];
  }

  /** Dropping distributes over concatenation: the kept strings keep their relative order. */
  lemma {:induction false} DropEmptyAppend(a: seq<string>, b: seq<string>)
    ensures DropEmpty(a + b) == DropEmpty(a) + DropEmpty(b)
    decreases |a|
  {
    if |a| == 0 {
      assert a + b == b;
    } else {
      assert (a + b)[0] == a[0];
      assert (a + b)[1..] == a[1..] + b;
      DropEmptyAppend(a[1..], b);
    }
  }

  /** Strings that are all non-empty pass through unchanged. */
  lemma {:induction false} DropEmptyFixed(ts: seq<string>)
    requires forall i :: 0 <= i < |ts| ==> ts[i] != ""
    ensures DropEmpty(ts) == ts
    decreases |ts|
  {
    if |ts| > 0 {
      DropEmptyFixed(ts[1..]);
      assert [ts[0]] + ts[1..] == ts;
    }
  }

  /** Pieces that are all trimmed already are left as they are. */
  lemma TrimAllFixed(ts: seq<string>)
    requires forall i :: 0 <= i < |ts| ==> Trimmed(ts[i])
    ensures TrimAll(ts) == ts
  {
  }

  /**
   * `tags.split(',').map(t => t.trim()).filter(t => t)`: every tag shown is
   * non-empty, trimmed and free of commas, and every non-empty trimmed piece
   * of the text is shown.  `NormaliseTagsPiece` and `NormaliseTagsAppend`
   * pin the list down: the trimmed non-blank pieces, in text order, repeats kept.
   */
  function NormaliseTags(tags: string): (r: seq<string>)
    ensures forall i :: 0 <= i < |r| ==> r[i] != "" && Trimmed(r[i]) && ',' !in r[i]
    ensures forall p :: p in Split(tags, ',') && !IsBlank(p) ==> Trim(p) in r
  {
    var parts := Split(tags, ',');
    var r := DropEmpty(TrimAll(parts));
    PiecesOfTags(parts, r);
    r
  }

  /** What survives dropping came from a trimmed piece, so it is trimmed and comma-free. */
  lemma PiecesOfTags(parts: seq<string>, r: seq<string>)
    requires forall j :: 0 <= j < |parts| ==> ',' !in parts[j]
    requires r == DropEmpty(TrimAll(parts))
    ensures forall i :: 0 <= i < |r| ==> r[i] != "" && Trimmed(r[i]) && ',' !in r[i]
    ensures forall p :: p in parts && !IsBlank(p) ==> Trim(p) in r
    ensures forall i :: 0 <= i < |r| ==> exists j :: 0 <= j < |parts| && r[i] == Trim(parts[j])
  {
    var ts := TrimAll(parts);
    forall i | 0 <= i < |r|
      ensures r[i] != "" && Trimmed(r[i]) && ',' !in r[i]
      ensures exists j :: 0 <= j < |parts| && r[i] == Trim(parts[j])
    {
      assert r[i] in r;
      var j :| 0 <= j < |ts| && ts[j] == r[i];
      assert r[i] == Trim(parts[j]);
      TrimInfix(parts[j]);
    }
    forall p | p in parts && !IsBlank(p) ensures Trim(p) in r {
      var j :| 0 <= j < |parts| && parts[j] == p;
      assert ts[j] == Trim(p);
    }
  }

  /** A comma-free text is one piece: it gives its trim as the only tag, or no tag when blank. */
  lemma NormaliseTagsPiece(p: string)
    requires ',' !in p
    ensures NormaliseTags(p) == if IsBlank(p) then [] else [Trim(p)]
  {
    SplitPiece(p, ',');
    assert TrimAll([p]) == [Trim(p)];
  }

  /**
   * The tags of two texts joined by a comma are the tags of the first followed
   * by the tags of the second: order and repeats are kept, nothing is added.
   */
  lemma NormaliseTagsAppend(a: string, b: string)
    ensures NormaliseTags(a + [','] + b) == NormaliseTags(a) + NormaliseTags(b)
  {
    var x, y := Split(a, ','), Split(b, ',');
    SplitAppend(a, b, ',');
    TrimAllAppend(x, y);
    DropEmptyAppend(TrimAll(x), TrimAll(y));
  }

  /** Joining normalised tags with commas and normalising again gives the same tags. */
  lemma NormaliseTagsIdempotent(tags: string)
    ensures NormaliseTags(Join(NormaliseTags(tags), ',')) == NormaliseTags(tags)
  {
    var ts := NormaliseTags(tags);
    if |ts| == 0 {
      assert Split("", ',') == [""];
      assert TrimAll([""]) == [""];
    } else {
      SplitJoin(ts, ',');
      TrimAllFixed(ts);
      DropEmptyFixed(ts);
    }
  }
}
