/** Documents built by concatenating pieces of text, as the exporter builds its XML. */
module Text {

  /** The exporter's `newLine`, which ends every line of the document. */
  const NL: string := "\n"

  /** The pieces joined in order. */
  function Concat(parts: seq<string>): string
  {
    if |parts| == 0 then "" else Concat(parts[..|parts| - 1]) + parts[|parts| - 1]
  }

  lemma ConcatAppend(parts: seq<string>, p: string)
    ensures Concat(parts + [p]) == Concat(parts) + p
  {
    assert (parts + [p])[..|parts|] == parts;
  }

  /** The text of the first `k + 1` pieces is that of the first `k` followed by piece `k`. */
  lemma ConcatStep(parts: seq<string>, k: nat)
    requires k < |parts|
    ensures Concat(parts[..k + 1]) == Concat(parts[..k]) + parts[k]
  {
    assert parts[..k + 1][..k] == parts[..k];
  }

  /** The total length of the first `k` pieces. */
  function PrefixLength(parts: seq<string>, k: nat): nat
    requires k <= |parts|
  {
    if k == 0 then 0 else PrefixLength(parts, k - 1) + |parts[k - 1]|
  }

  /** The text of the first `k` pieces is as long as those pieces together. */
  lemma {:induction false} ConcatPrefixLength(parts: seq<string>, k: nat)
    requires k <= |parts|
    ensures |Concat(parts[..k])| == PrefixLength(parts, k)
  {
    if k > 0 {
      ConcatPrefixLength(parts, k - 1);
      ConcatStep(parts, k - 1);
    }
  }

  /** The length of the first six pieces, written out. */
  lemma PrefixLengthSix(parts: seq<string>)
    requires 6 <= |parts|
    ensures PrefixLength(parts, 6) == |parts[0]| + |parts[1]| + |parts[2]| + |parts[3]| + |parts[4]| + |parts[5]|
  {
    assert PrefixLength(parts, 1) == |parts[0]|;
    assert PrefixLength(parts, 2) == PrefixLength(parts, 1) + |parts[1]|;
    assert PrefixLength(parts, 3) == PrefixLength(parts, 2) + |parts[2]|;
    assert PrefixLength(parts, 4) == PrefixLength(parts, 3) + |parts[3]|;
    assert PrefixLength(parts, 5) == PrefixLength(parts, 4) + |parts[4]|;
  }

  /** The length of the first ten pieces, written out. */
  lemma PrefixLengthTen(parts: seq<string>)
    requires 10 <= |parts|
    ensures PrefixLength(parts, 10) == PrefixLength(parts, 6) + |parts[6]| + |parts[7]| + |parts[8]| + |parts[9]|
  {
    assert PrefixLength(parts, 7) == PrefixLength(parts, 6) + |parts[6]|;
    assert PrefixLength(parts, 8) == PrefixLength(parts, 7) + |parts[7]|;
    assert PrefixLength(parts, 9) == PrefixLength(parts, 8) + |parts[8]|;
  }

  /** The length of the first fifteen pieces, written out. */
  lemma PrefixLengthFifteen(parts: seq<string>)
    requires 15 <= |parts|
    ensures PrefixLength(parts, 15) == PrefixLength(parts, 10) + |parts[10]| + |parts[11]| + |parts[12]| + |parts[13]| + |parts[14]|
  {
    assert PrefixLength(parts, 11) == PrefixLength(parts, 10) + |parts[10]|;
    assert PrefixLength(parts, 12) == PrefixLength(parts, 11) + |parts[11]|;
    assert PrefixLength(parts, 13) == PrefixLength(parts, 12) + |parts[12]|;
    assert PrefixLength(parts, 14) == PrefixLength(parts, 13) + |parts[13]|;
  }

  /**
   * Every piece appears in the joined text, verbatim, between the text of
   * the pieces before it and the text of the pieces after it.
   */
  lemma {:induction false} PieceInConcat(parts: seq<string>, k: nat)
    requires k < |parts|
    ensures Concat(parts) == Concat(parts[..k]) + parts[k] + Concat(parts[k + 1..])
    decreases |parts|
  {
    var n := |parts|;
    var init := parts[..n - 1];
    var last := parts[n - 1];
    assert Concat(parts) == Concat(init) + last;
    if k == n - 1 {
      assert init == parts[..k];
      assert parts[k + 1..] == [];
    } else {
      PieceInConcat(init, k);
      assert init[..k] == parts[..k];
      assert init[k] == parts[k];
      var mid := parts[k + 1..];
      assert mid[..|mid| - 1] == init[k + 1..];
      assert mid[|mid| - 1] == last;
      assert Concat(mid) == Concat(init[k + 1..]) + last;
    }
  }

  /** Three consecutive pieces appear, in order, between the text before and after them. */
  lemma ThreePiecesInConcat(parts: seq<string>, k: nat)
    requires k + 3 <= |parts|
    ensures Concat(parts) == Concat(parts[..k]) + parts[k] + parts[k + 1] + parts[k + 2] + Concat(parts[k + 3..])
  {
    var before := Concat(parts[..k]);
    var after := Concat(parts[k + 3..]);
    var rest := parts[k + 2..];
    assert Concat(parts) == Concat(parts[..k + 1]) + parts[k + 1] + Concat(rest) by {
      PieceInConcat(parts, k + 1);
    }
    assert Concat(parts[..k + 1]) == before + parts[k] by {
      assert parts[..k + 1][..k] == parts[..k];
    }
    assert Concat(rest) == parts[k + 2] + after by {
      PieceInConcat(rest, 0);
      assert rest[..0] == [];
      assert rest[1..] == parts[k + 3..];
      assert Concat(rest[..0]) + rest[0] == rest[0];
    }
    AppendAssoc(before + parts[k] + parts[k + 1], parts[k + 2], after);
  }

  lemma AppendAssoc(a: string, b: string, c: string)
    ensures a + (b + c) == a + b + c
  {
  }

  /** `piece` appears in `doc` starting at index `at`. */
  predicate Occurs(doc: string, piece: string, at: int)
  {
    0 <= at && at + |piece| <= |doc| && doc[at..at + |piece|] == piece
  }

  lemma OccursBetween(before: string, piece: string, after: string)
    ensures Occurs(before + piece + after, piece, |before|)
  {
    var doc := before + piece + after;
    assert doc[|before|..|before| + |piece|] == piece;
  }

  /**
   * A line `pre + mid + post + end` whose `pre` begins with `lead` begins
   * with `lead` and with `pre`, holds `mid` right after `pre`, and ends
   * with `post + end`.
   */
  lemma LineAround(lead: string, pre: string, mid: string, post: string, end: string)
    requires |lead| <= |pre| && pre[..|lead|] == lead
    ensures var r := pre + mid + post + end;
            && |r| == |pre| + |mid| + |post| + |end|
            && r[..|lead|] == lead && r[|r| - |end|..] == end
            && Occurs(r, pre, 0) && Occurs(r, mid, |pre|) && Occurs(r, post + end, |r| - |post + end|)
  {
    var r := pre + mid + post + end;
    assert r == pre + mid + (post + end);
    OccursBetween(pre, mid, post + end);
    assert r[..|lead|] == pre[..|lead|];
    assert r[..|pre|] == pre;
    assert r[|pre| + |mid|..] == post + end;
  }

  /**
   * Three consecutive pieces of the list appear together in the joined
   * text, right after the text of the pieces before them.
   */
  lemma Enclosed(parts: seq<string>, k: nat, open: string, close: string)
    requires k + 3 <= |parts| && parts[k] == open && parts[k + 2] == close
    ensures Occurs(Concat(parts), open + parts[k + 1] + close, |Concat(parts[..k])|)
  {
    var before := Concat(parts[..k]);
    var after := Concat(parts[k + 3..]);
    var piece := open + parts[k + 1] + close;
    ThreePiecesInConcat(parts, k);
    assert Concat(parts) == before + piece + after by {
      AppendAssoc(before, open, parts[k + 1]);
      AppendAssoc(before, open + parts[k + 1], close);
    }
    OccursBetween(before, piece, after);
  }
}
