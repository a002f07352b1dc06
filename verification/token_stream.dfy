/** Formatted extraction from a character stream, as `std::istream` performs
    it. The stream is the input not yet consumed; every read returns the value
    and the input left after it, or `None` when the stream would enter the
    fail state. A read that consumes the last character sets eofbit, which
    the model sees as an empty remainder. */
module TokenStream {
  import opened Wrappers
  import opened IntText

  /** Length of the run of non-space characters at the front of `s`. */
  function WordLen(s: seq<char>): (n: nat)
    ensures n <= |s|
    ensures forall k :: 0 <= k < n ==> !IsSpace(s[k])
    ensures n < |s| ==> IsSpace(s[n])
  {
    if s == [] || IsSpace(s[0]) then 0 else 1 + WordLen(s[1..])
  }

  /** `is >> word` on a `std::string`: skips white space, then takes the
      longest run of non-space characters; fails only at end of input. */
  function ReadWord(s: seq<char>): (r: Option<(string, seq<char>)>)
    ensures r.Some? ==> |r.value.0| > 0 && |r.value.1| < |s|
    ensures r.Some? ==> forall k :: 0 <= k < |r.value.0| ==> !IsSpace(r.value.0[k])
    ensures r.Some? && r.value.1 != [] ==> IsSpace(r.value.1[0])
    ensures r.None? <==> SkipSpace(s) == []
  {
    var q := SkipSpace(s);
    if q == [] then None
    else
      var n := WordLen(q);
      Some((q[..n], q[n..]))
  }

  /** `is >> n` on an `int`. */
  function ReadInt(s: seq<char>): (r: Option<(int, seq<char>)>)
    ensures r.Some? ==> |r.value.1| < |s| && INT_MIN <= r.value.0 <= INT_MAX
  {
    match ScanInt(s)
    case None => None
    case Some(sc) => Some((sc.value, sc.rest))
  }

  /** `n` consecutive `is >> n` reads with no check in between. */
  function ReadInts(s: seq<char>, n: nat): (r: Option<(seq<int>, seq<char>)>)
    ensures r.Some? ==> |r.value.0| == n && |r.value.1| <= |s|
    ensures r.Some? && n > 0 ==> |r.value.1| < |s|
    ensures r.Some? ==> InInt32(r.value.0)
    decreases n
  {
    if n == 0 then Some(([], s))
    else
      match ReadInt(s)
      case None => None
      case Some((v, s1)) =>
        match ReadInts(s1, n - 1)
        case None => None
        case Some((vs, s2)) =>
          assert forall k :: 1 <= k < 1 + |vs| ==> ([v] + vs)[k] == vs[k - 1];
          Some(([v] + vs, s2))
  }

  /** `is.ignore(max, '\n')`: drops everything up to and including the next
      newline, or the whole rest when there is none. */
  function Ignore(s: seq<char>): (r: seq<char>)
    ensures |r| <= |s|
    ensures |r| < |s| ==> s[|s| - |r| - 1] == '\n' || r == []
    ensures forall k :: 0 <= k < |s| - |r| - 1 ==> s[k] != '\n'
  {
    if s == [] then []
    else if s[0] == '\n' then s[1..]
    else Ignore(s[1..])
  }

  lemma ReadIntsCons(s: seq<char>, v: int, s1: seq<char>, vs: seq<int>, s2: seq<char>)
    requires ScanInt(s) == Some(IntScan(v, s1))
    requires ReadInts(s1, |vs|) == Some((vs, s2))
    ensures ReadInts(s, 1 + |vs|) == Some(([v] + vs, s2))
  {
    assert ReadInt(s) == Some((v, s1));
  }

  // ---- reading back printed text ----------------------------------------
  // Printers take the text that follows as an argument `tail`, so that a
  // printed record reads back without any reassociation of concatenations.

  predicate AllSpace(ws: seq<char>) {
    forall k :: 0 <= k < |ws| ==> IsSpace(ws[k])
  }

  predicate StartsWithSpace(s: seq<char>) { s != [] && IsSpace(s[0]) }

  predicate InInt32(vs: seq<int>) {
    forall k :: 0 <= k < |vs| ==> INT_MIN <= vs[k] <= INT_MAX
  }

  predicate IsInt32(v: int) { INT_MIN <= v <= INT_MAX }

  lemma InInt32One(a: int)
    requires IsInt32(a)
    ensures InInt32([a])
  {
    var vs := [a];
    forall k | 0 <= k < |vs| ensures IsInt32(vs[k]) {
      assert k == 0;
    }
  }

  lemma InInt32Three(a: int, b: int, c: int)
    requires IsInt32(a) && IsInt32(b) && IsInt32(c)
    ensures InInt32([a, b, c])
  {
    var vs := [a, b, c];
    forall k | 0 <= k < |vs| ensures IsInt32(vs[k]) {
      assert k == 0 || k == 1 || k == 2;
    }
  }

  lemma InInt32Four(a: int, b: int, c: int, d: int)
    requires IsInt32(a) && IsInt32(b) && IsInt32(c) && IsInt32(d)
    ensures InInt32([a, b, c, d])
  {
    var vs := [a, b, c, d];
    forall k | 0 <= k < |vs| ensures IsInt32(vs[k]) {
      assert k == 0 || k == 1 || k == 2 || k == 3;
    }
  }

  predicate IsWord(w: string) {
    |w| > 0 && forall k :: 0 <= k < |w| ==> !IsSpace(w[k])
  }

  /** Numbers each preceded by one space, then `tail`. */
  function SpacedInts(vs: seq<int>, tail: seq<char>): (t: seq<char>)
    ensures StartsWithSpace(tail) ==> StartsWithSpace(t)
  {
    if vs == [] then tail else " " + (Show(vs[0]) + SpacedInts(vs[1..], tail))
  }

  /** Numbers separated by single spaces, then `tail`. */
  function IntsText(vs: seq<int>, tail: seq<char>): seq<char>
    requires |vs| > 0
  {
    Show(vs[0]) + SpacedInts(vs[1..], tail)
  }

  lemma ReadShown(ws: seq<char>, n: int, tail: seq<char>)
    requires AllSpace(ws) && INT_MIN <= n <= INT_MAX && StartsWithSpace(tail)
    ensures ScanInt(ws + (Show(n) + tail)) == Some(IntScan(n, tail))
  {
    ScanAfterSpace(ws, Show(n) + tail);
    ScanShow(n, tail);
  }

  lemma {:induction false} ReadSpacedInts(vs: seq<int>, tail: seq<char>)
    requires InInt32(vs) && StartsWithSpace(tail)
    ensures ReadInts(SpacedInts(vs, tail), |vs|) == Some((vs, tail))
    decreases |vs|
  {
    if vs != [] {
      var after := SpacedInts(vs[1..], tail);
      ReadShown(" ", vs[0], after);
      ReadSpacedInts(vs[1..], tail);
      ReadIntsCons(SpacedInts(vs, tail), vs[0], after, vs[1..], tail);
      assert [vs[0]] + vs[1..] == vs;
    }
  }

  lemma ReadIntsText(ws: seq<char>, vs: seq<int>, tail: seq<char>)
    requires |vs| > 0 && AllSpace(ws) && InInt32(vs) && StartsWithSpace(tail)
    ensures ReadInts(ws + IntsText(vs, tail), |vs|) == Some((vs, tail))
  {
    var after := SpacedInts(vs[1..], tail);
    ReadShown(ws, vs[0], after);
    ReadSpacedInts(vs[1..], tail);
    ReadIntsCons(ws + IntsText(vs, tail), vs[0], after, vs[1..], tail);
    assert [vs[0]] + vs[1..] == vs;
  }

  lemma {:induction false} WordLenOf(w: string, tail: seq<char>)
    requires forall k :: 0 <= k < |w| ==> !IsSpace(w[k])
    requires StartsWithSpace(tail)
    ensures WordLen(w + tail) == |w|
    decreases |w|
  {
    if w != [] {
      assert (w + tail)[1..] == w[1..] + tail;
      WordLenOf(w[1..], tail);
    }
  }

  lemma ReadWordBack(ws: seq<char>, w: string, tail: seq<char>)
    requires AllSpace(ws) && IsWord(w) && StartsWithSpace(tail)
    ensures ReadWord(ws + (w + tail)) == Some((w, tail))
  {
    var s := w + tail;
    SkipSpacePrefix(ws, s);
    WordLenOf(w, tail);
    assert s[..|w|] == w && s[|w|..] == tail;
  }

  lemma IgnoreNewline(rest: seq<char>)
    ensures Ignore("\n" + rest) == rest
  {
    assert ("\n" + rest)[1..] == rest;
  }
}
