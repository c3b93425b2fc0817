/** Keys of unordered peer pairs: packages/server/src/negotiate.ts, lines 83-90. */
module PairKeys {
  import opened Common

  type PeerId = string

  /** JavaScript's < on strings: comparison by code units. */
  predicate Less(a: string, b: string) {
    b != "" && (a == "" || a[0] < b[0] || (a[0] == b[0] && Less(a[1..], b[1..])))
  }

  lemma {:induction false} LessTotal(a: string, b: string)
    ensures a == b ==> !Less(a, b)
    ensures a != b ==> (Less(a, b) <==> !Less(b, a))
    decreases |a|
  {
    if a != "" && b != "" && a[0] == b[0] {
      assert a == [a[0]] + a[1..] && b == [b[0]] + b[1..];
      LessTotal(a[1..], b[1..]);
    }
  }

  lemma {:induction false} LessTransitive(a: string, b: string, c: string)
    requires Less(a, b) && Less(b, c)
    ensures Less(a, c)
    decreases |a|
  {
    if a != "" && b != "" && c != "" && a[0] == b[0] && b[0] == c[0] {
      LessTransitive(a[1..], b[1..], c[1..]);
    }
  }

  function PairKey(a: string, b: string): string {
    if Less(a, b) then a + ":" + b else b + ":" + a
  }

  /** The first two parts of the key; the second is undefined when the key has no colon. */
  function ParsePairKey(key: string): (string, Option<string>) {
    var parts := Split(key, ':');
    (parts[0], if |parts| > 1 then Some(parts[1]) else None)
  }

  function Ordered(a: string, b: string): (string, string) {
    if Less(a, b) then (a, b) else (b, a)
  }

  lemma PairKeySymmetric(a: string, b: string)
    ensures PairKey(a, b) == PairKey(b, a)
  {
    LessTotal(a, b);
  }

  /** Parsing a key gives back the ordered pair exactly when neither id holds a colon. */
  lemma ParseInvertsKey(a: string, b: string)
    ensures ParsePairKey(PairKey(a, b)) == (Ordered(a, b).0, Some(Ordered(a, b).1))
            <==> ':' !in a && ':' !in b
  {
    var (x, y) := Ordered(a, b);
    assert PairKey(a, b) == x + [':'] + y;
    if ':' !in a && ':' !in b {
      SplitPrefix(x, ':', y);
      SplitWhole(y, ':');
    }
  }

  /** So on ids without a colon, as in UUID text (section 4 of RFC 9562), a key stands for one unordered pair. */
  lemma KeyDeterminesPair(a: PeerId, b: PeerId, c: PeerId, d: PeerId)
    requires ':' !in a && ':' !in b && ':' !in c && ':' !in d
    ensures PairKey(a, b) == PairKey(c, d) <==> (a == c && b == d) || (a == d && b == c)
  {
    ParseInvertsKey(a, b);
    ParseInvertsKey(c, d);
    PairKeySymmetric(a, b);
  }

  /** With a colon inside an id two different pairs share a key. */
  lemma ColonsCollide()
    ensures PairKey("a:b", "c") == PairKey("a", "b:c")
  {
    assert Less("a:b", "c") && Less("a", "b:c");
    assert "a:b" + ":" + "c" == "a" + ":" + "b:c";
  }

  /** The ordered pair a key stands for; the server's maps are keyed by it. */
  datatype Pair = Pair(lo: PeerId, hi: PeerId) {
    /** Both ends differ and stand in key order. */
    predicate Proper() { Less(lo, hi) }

    predicate Has(x: PeerId) { x == lo || x == hi }
  }

  function PairOf(a: PeerId, b: PeerId): (p: Pair)
    ensures p.Has(a) && p.Has(b)
    ensures p == Pair(a, b) || p == Pair(b, a)
    ensures PairKey(a, b) == p.lo + ":" + p.hi
  {
    if Less(a, b) then Pair(a, b) else Pair(b, a)
  }

  lemma PairOfSymmetric(a: PeerId, b: PeerId)
    ensures PairOf(a, b) == PairOf(b, a)
    ensures PairOf(a, b).Proper() <==> a != b
  {
    LessTotal(a, b);
  }

  /** A proper pair is the key pair of its own ends. */
  lemma PairOfEnds(p: Pair)
    requires p.Proper()
    ensures p.lo != p.hi && PairOf(p.lo, p.hi) == p && PairOf(p.hi, p.lo) == p
  {
    LessTotal(p.lo, p.hi);
  }

  /** No proper pair is another one backwards. */
  lemma NotReversed(p: Pair)
    requires p.Proper() || p.lo == p.hi
    ensures !Pair(p.hi, p.lo).Proper()
  {
    LessTotal(p.lo, p.hi);
  }
}
