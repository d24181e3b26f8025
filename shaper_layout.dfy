/**
 * shapersvg/layout.rb: end-point matching (`samepos`), the edge and arc
 * "globs" with their reversal flag, the boundary reordering `reorder`, and the
 * layout state of `Transformer` (extents of the outer loop, shelf cursor and
 * viewport).
 */
module ShaperLayout {
  import opened Wrappers
  import opened Geometry
  import opened Packing

  /** The end-point matching tolerance, and its square. */
  const TOLERANCE: real := 0.05
  const TOLERANCE_SQ: real := 0.0025

  /**
   * `samepos`: the two positions are closer than TOLERANCE. Both sides of
   * `(pos1 - pos2).length < TOLERANCE` are non-negative, so squares are compared.
   */
  predicate SamePos(p: Vec, q: Vec) {
    AbsSq(Sub(p, q)) < TOLERANCE_SQ
  }

  lemma SamePosSymmetric(p: Vec, q: Vec)
    ensures TOLERANCE_SQ == TOLERANCE * TOLERANCE
    ensures SamePos(p, q) <==> SamePos(q, p)
    ensures SamePos(p, p)
  {
    assert Sub(q, p) == Scale(Sub(p, q), -1.0);
  }

  lemma SquareGrows(d: real, t: real)
    requires 0.0 <= t && (t <= d || d <= -t)
    ensures d * d >= t * t
  {
    if d >= t {
      assert d * d >= t * d >= t * t;
    } else {
      var e := -d;
      assert d * d == e * e;
      assert e * e >= t * e >= t * t;
    }
  }

  /** Positions TOLERANCE or more apart along either axis are not the same position. */
  lemma FarApart(p: Vec, q: Vec)
    requires p.x - q.x >= TOLERANCE || q.x - p.x >= TOLERANCE || p.y - q.y >= TOLERANCE || q.y - p.y >= TOLERANCE
    ensures !SamePos(p, q)
  {
    var d := Sub(p, q);
    if d.x >= TOLERANCE || d.x <= -TOLERANCE {
      SquareGrows(d.x, TOLERANCE);
    } else {
      SquareGrows(d.y, TOLERANCE);
    }
  }

  // ---------------------------------------------------------------------------
  // Globs as values

  /**
   * What a glob reports: whether it is an arc, the start of its first edge and
   * the end of its last edge, and the reversal flag.
   */
  datatype Part = Part(isArc: bool, first: Vec, last: Vec, reversed: bool)

  /** `startpos`. */
  function Start(p: Part): Vec {
    if p.reversed then p.last else p.first
  }

  /** `endpos`. */
  function End(p: Part): Vec {
    if p.reversed then p.first else p.last
  }

  /** `reverse`: sets the flag (it does not toggle it). */
  function Flip(p: Part): Part {
    p.(reversed := true)
  }

  /** The glob itself, whatever its flag says. */
  function Underlying(p: Part): Part {
    p.(reversed := false)
  }

  /**
   * `reverse` swaps what `startpos` and `endpos` report for a glob that was not
   * reversed yet, and is idempotent: on a reversed glob it changes nothing.
   */
  lemma FlipSwapsEnds(p: Part)
    ensures !p.reversed ==> Start(Flip(p)) == End(p) && End(Flip(p)) == Start(p)
    ensures p.reversed ==> Flip(p) == p
    ensures Flip(Flip(p)) == Flip(p) && Underlying(Flip(p)) == Underlying(p)
  {
  }

  /** Each element with its flag cleared. */
  function Bases(s: seq<Part>): (r: seq<Part>)
    ensures |r| == |s| && forall k :: 0 <= k < |s| ==> r[k] == Underlying(s[k])
  {
    seq(|s|, k requires 0 <= k < |s| => Underlying(s[k]))
  }

  predicate NoneReversed(s: seq<Part>) {
    forall k :: 0 <= k < |s| ==> !s[k].reversed
  }

  /** Every element ends where the next one starts. */
  predicate Chained(s: seq<Part>) {
    forall k :: 0 <= k < |s| - 1 ==> SamePos(End(s[k]), Start(s[k + 1]))
  }

  // ---------------------------------------------------------------------------
  // The reordering, as a function of the globs' values

  /** Where the scan stopped: the candidate's index and whether only its end matched. */
  datatype Match = Match(index: nat, byEnd: bool)

  /** The glob continues a chain whose last element ends at `tail`. */
  predicate Connects(tail: Vec, p: Part) {
    SamePos(tail, Start(p)) || SamePos(tail, End(p))
  }

  /**
   * One scan of `globs.each_with_index`: the first candidate in list order that
   * connects to `tail`, matched by its start when it can be, else by its end.
   */
  function FindNext(tail: Vec, rest: seq<Part>): (m: Option<Match>)
    ensures m.Some? ==>
      && m.value.index < |rest|
      && Connects(tail, rest[m.value.index])
      && m.value.byEnd == !SamePos(tail, Start(rest[m.value.index]))
      && forall j :: 0 <= j < m.value.index ==> !Connects(tail, rest[j])
    ensures m.None? ==> forall j :: 0 <= j < |rest| ==> !Connects(tail, rest[j])
  {
    if |rest| == 0 then None
    else if SamePos(tail, Start(rest[0])) then Some(Match(0, false))
    else if SamePos(tail, End(rest[0])) then Some(Match(0, true))
    else
      match FindNext(tail, rest[1..])
      case None => None
      case Some(m) => Some(Match(m.index + 1, m.byEnd))
  }

  /** The candidate as appended: reversed when it matched by its end. */
  function Orient(p: Part, byEnd: bool): Part {
    if byEnd then Flip(p) else p
  }

  function Without<T>(s: seq<T>, i: nat): seq<T>
    requires i < |s|
  {
    s[..i] + s[i + 1..]
  }

  /**
   * What `reorder` returns: the ordered globs; or the failure raised when no
   * remaining glob connects to the tail of the chain built so far (the chain
   * and the globs still remaining); or no result for an empty list.
   */
  datatype Outcome<T> = Ordered(chain: seq<T>) | Disconnected(chain: seq<T>, remaining: seq<T>) | NoGlobs

  /** The `while globs.size > 0` loop, from the chain built so far and the globs left. */
  function Extend(chain: seq<Part>, rest: seq<Part>): Outcome<Part>
    requires |chain| > 0
    decreases |rest|
  {
    if |rest| == 0 then Ordered(chain)
    else
      match FindNext(End(chain[|chain| - 1]), rest)
      case None => Disconnected(chain, rest)
      case Some(m) => Extend(chain + [Orient(rest[m.index], m.byEnd)], Without(rest, m.index))
  }

  /** `reorder` on the values of the globs. */
  function Order(parts: seq<Part>): Outcome<Part> {
    if |parts| == 0 then NoGlobs else Extend([parts[0]], parts[1..])
  }

  lemma MultisetWithout<T>(s: seq<T>, i: nat)
    requires i < |s|
    ensures multiset(s) == multiset(Without(s, i)) + multiset{s[i]}
  {
    assert s == s[..i] + [s[i]] + s[i + 1..];
  }

  lemma WithoutShrinks<T>(s: seq<T>, i: nat)
    requires i < |s|
    ensures multiset(Without(s, i)) <= multiset(s)
  {
    MultisetWithout(s, i);
  }

  lemma MovePermutes<T>(a: seq<T>, b: seq<T>, i: nat)
    requires i < |b|
    ensures multiset((a + [b[i]]) + Without(b, i)) == multiset(a + b)
  {
    MultisetWithout(b, i);
  }

  lemma BasesAppend(a: seq<Part>, b: seq<Part>)
    ensures Bases(a + b) == Bases(a) + Bases(b)
  {
  }

  lemma BasesWithout(s: seq<Part>, i: nat)
    requires i < |s|
    ensures Bases(Without(s, i)) == Without(Bases(s), i)
  {
  }

  /** The chain only ever grows at its end, and every run ends in Ordered or Disconnected. */
  lemma {:induction false} ExtendKeepsPrefix(chain: seq<Part>, rest: seq<Part>)
    requires |chain| > 0
    ensures var r := Extend(chain, rest);
      !r.NoGlobs? && |chain| <= |r.chain| && r.chain[..|chain|] == chain
    decreases |rest|
  {
    if |rest| > 0 {
      match FindNext(End(chain[|chain| - 1]), rest)
      case None =>
      case Some(m) =>
        var chain' := chain + [Orient(rest[m.index], m.byEnd)];
        ExtendKeepsPrefix(chain', Without(rest, m.index));
        assert chain'[..|chain|] == chain;
    }
  }

  /**
   * No glob is lost or duplicated: the result holds every input glob exactly
   * once (up to its flag), together with the remaining ones on failure.
   */
  lemma {:induction false} ExtendPermutes(chain: seq<Part>, rest: seq<Part>)
    requires |chain| > 0
    ensures var r := Extend(chain, rest);
      && (r.Ordered? ==> multiset(Bases(r.chain)) == multiset(Bases(chain)) + multiset(Bases(rest)))
      && (r.Disconnected? ==>
            multiset(Bases(r.chain)) + multiset(Bases(r.remaining))
              == multiset(Bases(chain)) + multiset(Bases(rest)))
    decreases |rest|
  {
    if |rest| > 0 {
      match FindNext(End(chain[|chain| - 1]), rest)
      case None =>
      case Some(m) =>
        ExtendPermutes(chain + [Orient(rest[m.index], m.byEnd)], Without(rest, m.index));
        StepPermutes(chain, rest, m.index, m.byEnd);
    }
  }

  /** Moving one glob from the remaining ones to the chain keeps the multiset of globs. */
  lemma StepPermutes(chain: seq<Part>, rest: seq<Part>, i: nat, byEnd: bool)
    requires i < |rest|
    ensures multiset(Bases(chain + [Orient(rest[i], byEnd)])) + multiset(Bases(Without(rest, i)))
      == multiset(Bases(chain)) + multiset(Bases(rest))
  {
    var p := Orient(rest[i], byEnd);
    BasesAppend(chain, [p]);
    assert Bases([p]) == [Bases(rest)[i]];
    BasesWithout(rest, i);
    MultisetWithout(Bases(rest), i);
  }

  /**
   * A failure is raised only when it must be: some globs remain, none of them
   * has been reversed by the run, and none connects to the tail's end.
   */
  lemma {:induction false} ExtendFailsOnlyWhenStuck(chain: seq<Part>, rest: seq<Part>)
    requires |chain| > 0
    ensures var r := Extend(chain, rest);
      r.Disconnected? ==>
        && |r.chain| > 0
        && |r.remaining| > 0
        && multiset(r.remaining) <= multiset(rest)
        && forall k :: 0 <= k < |r.remaining| ==> !Connects(End(r.chain[|r.chain| - 1]), r.remaining[k])
    decreases |rest|
  {
    if |rest| > 0 {
      match FindNext(End(chain[|chain| - 1]), rest)
      case None =>
        assert Extend(chain, rest) == Disconnected(chain, rest);
      case Some(m) =>
        var chain', rest' := chain + [Orient(rest[m.index], m.byEnd)], Without(rest, m.index);
        assert Extend(chain, rest) == Extend(chain', rest');
        ExtendFailsOnlyWhenStuck(chain', rest');
        WithoutShrinks(rest, m.index);
    }
  }

  /**
   * For globs not yet reversed, every appended glob starts where the chain
   * ended: by its start, or by its end after `reverse`.
   */
  lemma {:induction false} ExtendChains(chain: seq<Part>, rest: seq<Part>)
    requires |chain| > 0 && Chained(chain) && NoneReversed(rest)
    ensures !Extend(chain, rest).NoGlobs? && Chained(Extend(chain, rest).chain)
    decreases |rest|
  {
    ExtendKeepsPrefix(chain, rest);
    if |rest| > 0 {
      match FindNext(End(chain[|chain| - 1]), rest)
      case None =>
      case Some(m) =>
        var p := Orient(rest[m.index], m.byEnd);
        var chain' := chain + [p];
        assert SamePos(End(chain[|chain| - 1]), Start(p));
        assert Chained(chain');
        ExtendChains(chain', Without(rest, m.index));
    }
  }

  /**
   * Start matches are preferred: for globs not yet reversed, a glob of the
   * chain is reversed only if its own start did not match the previous end.
   */
  predicate PrefersStart(s: seq<Part>) {
    forall k :: 0 < k < |s| && s[k].reversed ==> !SamePos(End(s[k - 1]), s[k].first)
  }

  lemma {:induction false} ExtendPrefersStart(chain: seq<Part>, rest: seq<Part>)
    requires |chain| > 0 && PrefersStart(chain) && NoneReversed(rest)
    ensures !Extend(chain, rest).NoGlobs? && PrefersStart(Extend(chain, rest).chain)
    decreases |rest|
  {
    ExtendKeepsPrefix(chain, rest);
    if |rest| > 0 {
      match FindNext(End(chain[|chain| - 1]), rest)
      case None =>
      case Some(m) =>
        var p := Orient(rest[m.index], m.byEnd);
        var chain' := chain + [p];
        assert PrefersStart(chain');
        ExtendPrefersStart(chain', Without(rest, m.index));
    }
  }

  /**
   * `reorder` on success: as many globs as given, each input glob exactly once,
   * the first input glob first and in its own orientation, and (for globs not
   * reversed beforehand) every glob starting where the previous one ends, a
   * glob being reversed only when its start did not match. The last-to-first
   * closure is not checked by the code; OrderClosesLoop shows it holds on closed boundaries.
   */
  lemma OrderSucceeds(parts: seq<Part>)
    requires Order(parts).Ordered?
    ensures var c := Order(parts).chain;
      && |c| == |parts|
      && multiset(Bases(c)) == multiset(Bases(parts))
      && c[0] == parts[0]
      && (NoneReversed(parts) ==> Chained(c) && PrefersStart(c))
  {
    var c := Order(parts).chain;
    ExtendKeepsPrefix([parts[0]], parts[1..]);
    ExtendPermutes([parts[0]], parts[1..]);
    assert parts == [parts[0]] + parts[1..];
    BasesAppend([parts[0]], parts[1..]);
    assert |multiset(Bases(c))| == |parts|;
    if NoneReversed(parts) {
      ExtendChains([parts[0]], parts[1..]);
      ExtendPrefersStart([parts[0]], parts[1..]);
    }
  }

  /**
   * `reorder` raises exactly when some glob is left over that cannot be
   * connected: on failure the chain built so far still starts with the first
   * input glob, chain and remainder hold every input glob once, and no
   * remaining glob's start or end matches the tail's end.
   */
  lemma OrderFails(parts: seq<Part>)
    requires Order(parts).Disconnected?
    ensures var r := Order(parts);
      && |r.chain| > 0
      && r.chain[0] == parts[0]
      && |r.remaining| > 0
      && multiset(Bases(r.chain)) + multiset(Bases(r.remaining)) == multiset(Bases(parts))
      && (forall k :: 0 <= k < |r.remaining| ==> !Connects(End(r.chain[|r.chain| - 1]), r.remaining[k]))
  {
    var r := Extend([parts[0]], parts[1..]);
    assert Order(parts) == r;
    ExtendKeepsPrefix([parts[0]], parts[1..]);
    assert r.chain[0] == r.chain[..1][0];
    ExtendPermutes([parts[0]], parts[1..]);
    ExtendFailsOnlyWhenStuck([parts[0]], parts[1..]);
    BasesSplitHead(parts);
  }

  lemma BasesSplitHead(parts: seq<Part>)
    requires |parts| > 0
    ensures multiset(Bases([parts[0]])) + multiset(Bases(parts[1..])) == multiset(Bases(parts))
  {
    assert parts == [parts[0]] + parts[1..];
    BasesAppend([parts[0]], parts[1..]);
  }

  /** When no glob was reversed beforehand, a failed run leaves every remaining glob unreversed. */
  lemma OrderFailsUnreversed(parts: seq<Part>)
    requires Order(parts).Disconnected? && NoneReversed(parts)
    ensures NoneReversed(Order(parts).remaining)
  {
    ExtendFailsOnlyWhenStuck([parts[0]], parts[1..]);
    NoneReversedSubset(Order(parts).remaining, parts[1..]);
  }

  /** Globs taken from unreversed ones are unreversed. */
  lemma NoneReversedSubset(a: seq<Part>, b: seq<Part>)
    requires multiset(a) <= multiset(b) && NoneReversed(b)
    ensures NoneReversed(a)
  {
    forall k | 0 <= k < |a|
      ensures !a[k].reversed
    {
      assert a[k] in multiset(b);
    }
  }

  /** A closed boundary: each glob ends where the next starts, and the last where the first starts. */
  predicate ClosedLoop(cyc: seq<Part>) {
    |cyc| > 0 && Chained(cyc) && SamePos(End(cyc[|cyc| - 1]), Start(cyc[0]))
  }

  /**
   * No ambiguity along the loop: the end of each glob meets no glob that
   * comes after its successor, by either end.
   */
  predicate Unambiguous(cyc: seq<Part>) {
    forall j, k :: 0 <= j && j + 1 < k < |cyc| ==> !Connects(End(cyc[j]), cyc[k])
  }

  /**
   * The orientation the scan gives each glob after the first: reversed
   * exactly when its own start does not meet the end of the glob before it.
   */
  predicate ScanOriented(cyc: seq<Part>) {
    forall k :: 0 < k < |cyc| ==> (cyc[k].reversed <==> !SamePos(End(cyc[k - 1]), cyc[k].first))
  }

  /** Whether a glob meets a point does not depend on its flag. */
  lemma ConnectsIgnoresFlag(tail: Vec, p: Part)
    ensures Connects(tail, p) == Connects(tail, Underlying(p))
  {
  }

  /**
   * The scan from the end of glob j of an unambiguous chain, over unreversed
   * copies of exactly the globs after it, stops at glob j + 1, by its start
   * when glob j + 1 is unreversed and by its end when it is reversed.
   */
  lemma ScanFindsSuccessor(cyc: seq<Part>, j: nat, rest: seq<Part>) returns (i: nat)
    requires j + 1 < |cyc| && Chained(cyc) && Unambiguous(cyc) && ScanOriented(cyc)
    requires NoneReversed(rest) && multiset(rest) == multiset(Bases(cyc[j + 1..]))
    ensures i < |rest| && rest[i] == Underlying(cyc[j + 1])
    ensures FindNext(End(cyc[j]), rest) == Some(Match(i, cyc[j + 1].reversed))
    ensures Orient(rest[i], cyc[j + 1].reversed) == cyc[j + 1]
  {
    var tail := End(cyc[j]);
    var later := Bases(cyc[j + 1..]);
    assert later[0] == Underlying(cyc[j + 1]);
    assert later[0] in multiset(rest);
    var n :| 0 <= n < |rest| && rest[n] == later[0];
    ConnectsIgnoresFlag(tail, cyc[j + 1]);
    assert Connects(tail, rest[n]);
    var m := FindNext(tail, rest);
    assert m.Some?;
    i := m.value.index;
    assert rest[i] in multiset(later);
    var t :| 0 <= t < |later| && later[t] == rest[i];
    assert later[t] == Underlying(cyc[j + 1 + t]);
    ConnectsIgnoresFlag(tail, cyc[j + 1 + t]);
    assert t == 0;
  }

  /** Two sequences that are permutations of each other and share their head have permuted tails. */
  lemma TailsPermute<T>(a: seq<T>, b: seq<T>)
    requires |a| > 0 && |b| > 0 && a[0] == b[0] && multiset(a) == multiset(b)
    ensures multiset(a[1..]) == multiset(b[1..])
  {
    assert a == [a[0]] + a[1..];
    assert b == [b[0]] + b[1..];
    assert multiset(a[1..]) == multiset(a) - multiset{a[0]};
    assert multiset(b[1..]) == multiset(b) - multiset{b[0]};
  }

  /** Taking glob j + 1 out of the globs left leaves unreversed copies of those after it. */
  lemma LeftAfterStep(cyc: seq<Part>, j: nat, rest: seq<Part>, i: nat)
    requires j + 1 < |cyc| && i < |rest| && rest[i] == Underlying(cyc[j + 1])
    requires NoneReversed(rest) && multiset(rest) == multiset(Bases(cyc[j + 1..]))
    ensures NoneReversed(Without(rest, i)) && multiset(Without(rest, i)) == multiset(Bases(cyc[j + 2..]))
  {
    var rest' := Without(rest, i);
    MultisetWithout(rest, i);
    var later := Bases(cyc[j + 1..]);
    TailsPermute(later, [rest[i]] + rest');
    assert later[1..] == Bases(cyc[j + 2..]);
    assert ([rest[i]] + rest')[1..] == rest';
    NoneReversedSubset(rest', rest);
  }

  /**
   * Following an unambiguous chain: with the first j + 1 globs of `cyc` placed
   * and unreversed copies of exactly the remaining ones left (in any order),
   * the scan completes `cyc`, reversing the globs that `cyc` has reversed.
   */
  lemma {:induction false} ExtendFollowsChain(cyc: seq<Part>, j: nat, rest: seq<Part>)
    requires j < |cyc| && Chained(cyc) && Unambiguous(cyc) && ScanOriented(cyc)
    requires NoneReversed(rest) && multiset(rest) == multiset(Bases(cyc[j + 1..]))
    ensures Extend(cyc[..j + 1], rest) == Ordered(cyc)
    decreases |cyc| - j
  {
    if |rest| == 0 {
      assert |multiset(Bases(cyc[j + 1..]))| == 0;
      assert cyc[..j + 1] == cyc;
    } else {
      assert |cyc[j + 1..]| > 0;
      var i := ScanFindsSuccessor(cyc, j, rest);
      var rest' := Without(rest, i);
      assert cyc[..j + 1][j] == cyc[j];
      assert Extend(cyc[..j + 1], rest) == Extend(cyc[..j + 1] + [cyc[j + 1]], rest');
      assert cyc[..j + 1] + [cyc[j + 1]] == cyc[..j + 2];
      LeftAfterStep(cyc, j, rest, i);
      ExtendFollowsChain(cyc, j + 1, rest');
    }
  }

  /**
   * Success on a closed boundary. The globs arrive unreversed. When they can
   * be taken in some order, starting with the first input glob, and each
   * one reversed where the scan would reverse it, so that they close into an
   * unambiguous loop, `reorder` returns exactly that loop: every glob, each
   * adjacent pair matching, and the last glob ending where the first starts.
   */
  lemma OrderClosesLoop(parts: seq<Part>, cyc: seq<Part>)
    requires ClosedLoop(cyc) && Unambiguous(cyc) && ScanOriented(cyc)
    requires |parts| > 0 && NoneReversed(parts) && cyc[0] == parts[0]
    requires multiset(Bases(cyc)) == multiset(Bases(parts))
    ensures Order(parts) == Ordered(cyc)
    ensures var c := Order(parts).chain;
      && |c| == |parts| && Chained(c) && SamePos(End(c[|c| - 1]), Start(c[0]))
      && multiset(Bases(c)) == multiset(parts)
  {
    UnreversedBases(parts);
    OrderFollowsLoop(parts, cyc);
    var n := |Bases(cyc)|;
    assert n == |multiset(Bases(cyc))| == |multiset(parts)| == |parts|;
  }

  /** The run itself: from the first glob, the scan follows the loop to its end. */
  lemma OrderFollowsLoop(parts: seq<Part>, cyc: seq<Part>)
    requires |cyc| > 0 && Chained(cyc) && Unambiguous(cyc) && ScanOriented(cyc)
    requires |parts| > 0 && NoneReversed(parts) && cyc[0] == parts[0]
    requires multiset(Bases(cyc)) == multiset(parts)
    ensures Order(parts) == Ordered(cyc)
  {
    var rest := parts[1..];
    assert multiset(rest) == multiset(Bases(cyc[1..])) by {
      BasesHeadTail(cyc);
      TailsPermute(Bases(cyc), parts);
    }
    assert NoneReversed(rest);
    assert cyc[..1] == [parts[0]];
    ExtendFollowsChain(cyc, 0, rest);
    OrderStartsFromFirst(parts);
  }

  lemma OrderStartsFromFirst(parts: seq<Part>)
    requires |parts| > 0
    ensures Order(parts) == Extend([parts[0]], parts[1..])
  {
  }

  lemma UnreversedBases(s: seq<Part>)
    requires NoneReversed(s)
    ensures Bases(s) == s
  {
  }

  lemma BasesHeadTail(s: seq<Part>)
    requires |s| > 0
    ensures Bases(s)[0] == Underlying(s[0]) && Bases(s)[1..] == Bases(s[1..])
  {
  }

  // ---------------------------------------------------------------------------
  // Globs as objects

  /**
   * `EdgeGlob` and `ArcGlob`: the start of the glob's first edge, the end of its
   * last edge, and the `@reverse` flag that `reverse` sets in place.
   */
  class Glob {
    const isArc: bool
    const first: Vec
    const last: Vec
    var reversed: bool

    constructor (isArc: bool, first: Vec, last: Vec)
      ensures this.isArc == isArc && this.first == first && this.last == last
      ensures !reversed
    {
      this.isArc := isArc;
      this.first := first;
      this.last := last;
      reversed := false;
    }

    function View(): Part
      reads this
    {
      Part(isArc, first, last, reversed)
    }

    /** `startpos`. */
    function StartPos(): (p: Vec)
      reads this
      ensures p == Start(View())
    {
      if reversed then last else first
    }

    /** `endpos`. */
    function EndPos(): (p: Vec)
      reads this
      ensures p == End(View())
    {
      if reversed then first else last
    }

    /** `reverse`: sets the flag and answers the glob itself. */
    method Reverse() returns (self: Glob)
      modifies this
      ensures self == this
      ensures View() == Flip(old(View()))
    {
      reversed := true;
      self := this;
    }
  }

  function Views(gs: seq<Glob>): (vs: seq<Part>)
    reads set g | g in gs
    ensures |vs| == |gs| && forall k :: 0 <= k < |gs| ==> vs[k] == gs[k].View()
  {
    seq(|gs|, k requires 0 <= k < |gs| reads gs => gs[k].View())
  }

  /** No glob object occurs twice in the list. */
  ghost predicate Distinct<T>(s: seq<T>) {
    forall x :: x in s ==> multiset(s)[x] == 1
  }

  lemma DistinctSplit<T>(a: seq<T>, b: seq<T>, i: nat)
    requires i < |b| && Distinct(a + b)
    ensures b[i] !in a && b[i] !in Without(b, i)
  {
    assert b[i] in a + b;
    assert multiset(a + b) == multiset(a) + multiset(b);
    MultisetWithout(b, i);
  }

  lemma DistinctPermuted<T>(s: seq<T>, t: seq<T>)
    requires multiset(s) == multiset(t) && Distinct(t)
    ensures Distinct(s)
  {
    forall x | x in s
      ensures multiset(s)[x] == 1
    {
      assert x in multiset(t);
    }
  }

  /** One round of the `while` loop of `reorder`, as Extend takes it. */
  lemma ExtendStep(chain: seq<Part>, rest: seq<Part>, m: Option<Match>)
    requires |chain| > 0 && FindNext(End(chain[|chain| - 1]), rest) == m
    ensures m.None? ==> Extend(chain, rest) == if |rest| == 0 then Ordered(chain) else Disconnected(chain, rest)
    ensures m.Some? ==>
      Extend(chain, rest) == Extend(chain + [Orient(rest[m.value.index], m.value.byEnd)], Without(rest, m.value.index))
  {
  }

  /** A scan that stopped at the first connecting candidate `i` found what FindNext finds. */
  lemma {:induction false} FindNextAt(tail: Vec, rest: seq<Part>, i: nat)
    requires i < |rest| && Connects(tail, rest[i])
    requires forall j :: 0 <= j < i ==> !Connects(tail, rest[j])
    ensures FindNext(tail, rest) == Some(Match(i, !SamePos(tail, Start(rest[i]))))
    decreases i
  {
    if i > 0 {
      assert !Connects(tail, rest[0]);
      FindNextAt(tail, rest[1..], i - 1);
    }
  }

  /**
   * The inner scan of `reorder` (`globs.each_with_index`): the first remaining
   * glob in list order whose start, or failing that whose end, matches the end
   * of the chain's last glob. When none does, `reorder` fails here.
   */
  method Scan(ordered: seq<Glob>, rest: seq<Glob>) returns (found: bool, i: nat, byEnd: bool)
    requires |ordered| > 0 && |rest| > 0
    ensures var tail := End(Views(ordered)[|ordered| - 1]);
      && (found <==> FindNext(tail, Views(rest)).Some?)
      && (found ==> FindNext(tail, Views(rest)) == Some(Match(i, byEnd)))
    ensures !found ==> Extend(Views(ordered), Views(rest)) == Disconnected(Views(ordered), Views(rest))
  {
    ghost var vr := Views(rest);
    var tail := ordered[|ordered| - 1].EndPos();
    assert tail == End(Views(ordered)[|ordered| - 1]);
    i := 0;
    while i < |rest|
      invariant i <= |rest|
      invariant forall j :: 0 <= j < i ==> !Connects(tail, vr[j])
    {
      if SamePos(tail, rest[i].StartPos()) {
        FindNextAt(tail, vr, i);
        return true, i, false;
      }
      if SamePos(tail, rest[i].EndPos()) {
        FindNextAt(tail, vr, i);
        return true, i, true;
      }
      i := i + 1;
    }
    found, byEnd := false, false;
    ExtendStep(Views(ordered), vr, None);
  }

  /**
   * One round of the `while` loop once the scan matched the `i`th remaining glob:
   * appends it to the chain, reversing it in place when it matched by its end,
   * and removes it from the remaining ones.
   */
  method Take(ordered: seq<Glob>, rest: seq<Glob>, i: nat, byEnd: bool) returns (ordered': seq<Glob>, rest': seq<Glob>)
    requires |ordered| > 0 && i < |rest| && Distinct(ordered + rest)
    requires FindNext(End(Views(ordered)[|ordered| - 1]), Views(rest)) == Some(Match(i, byEnd))
    modifies rest[i]
    ensures ordered' == ordered + [rest[i]] && rest' == Without(rest, i)
    ensures Extend(Views(ordered'), Views(rest')) == old(Extend(Views(ordered), Views(rest)))
    ensures Views(ordered') == old(Views(ordered)) + [Orient(old(Views(rest))[i], byEnd)]
    ensures Views(rest') == Without(old(Views(rest)), i)
  {
    ghost var vo, vr := Views(ordered), Views(rest);
    ExtendStep(vo, vr, Some(Match(i, byEnd)));
    DistinctSplit(ordered, rest, i);
    rest' := Without(rest, i);
    ViewsWithout(rest, i);
    var g := rest[i];
    if byEnd {
      g := g.Reverse();
    }
    assert g.View() == Orient(vr[i], byEnd);
    assert Views(ordered) == vo;
    assert Views(rest') == Without(vr, i);
    ordered' := ordered + [g];
    ViewsAppend(ordered, [g]);
    assert Views([g]) == [Orient(vr[i], byEnd)];
    assert Views(ordered') == vo + [Orient(vr[i], byEnd)];
  }

  lemma ViewsWithout(gs: seq<Glob>, i: nat)
    requires i < |gs|
    ensures Views(Without(gs, i)) == Without(Views(gs), i)
  {
  }

  lemma ViewsAppend(a: seq<Glob>, b: seq<Glob>)
    ensures Views(a + b) == Views(a) + Views(b)
  {
  }

  /** One round of the `while` loop: the scan, then the append when it matched. */
  method Round(ordered: seq<Glob>, rest: seq<Glob>) returns (stuck: bool, ordered': seq<Glob>, rest': seq<Glob>)
    requires |ordered| > 0 && |rest| > 0 && Distinct(ordered + rest)
    modifies set g | g in rest
    ensures multiset(ordered' + rest') == multiset(ordered + rest)
    ensures |ordered'| > 0 && forall g :: g in rest' ==> g in rest
    ensures stuck ==>
      && ordered' == ordered && rest' == rest
      && old(Extend(Views(ordered), Views(rest))) == old(Disconnected(Views(ordered), Views(rest)))
      && Views(ordered) == old(Views(ordered)) && Views(rest) == old(Views(rest))
    ensures !stuck ==> |rest'| < |rest| && Extend(Views(ordered'), Views(rest')) == old(Extend(Views(ordered), Views(rest)))
  {
    var found, i, byEnd := Scan(ordered, rest);
    if !found {
      return true, ordered, rest;
    }
    MovePermutes(ordered, rest, i);
    DistinctSplit(ordered, rest, i);
    WithoutSubset(rest, i);
    ordered', rest' := Take(ordered, rest, i, byEnd);
    stuck := false;
  }

  lemma WithoutSubset<T>(s: seq<T>, i: nat)
    requires i < |s|
    ensures forall x :: x in Without(s, i) ==> x in s
  {
  }

  /**
   * `reorder`: works on a copy of the list (`globs.clone`), seeds the chain with
   * the first glob, and repeatedly scans the remaining globs in list order for
   * one whose start, or failing that whose end, matches the tail's end; an
   * end match is reversed in place. It is proved to compute `Order` of the
   * globs' values.
   */
  method Reorder(globs: seq<Glob>) returns (r: Outcome<Glob>)
    requires Distinct(globs)
    modifies set g | g in globs
    ensures var spec := Order(old(Views(globs)));
      && (r.Ordered? <==> spec.Ordered?)
      && (r.Disconnected? <==> spec.Disconnected?)
      && (r.NoGlobs? <==> spec.NoGlobs?)
      && (!r.NoGlobs? ==> Views(r.chain) == spec.chain)
      && (r.Disconnected? ==> Views(r.remaining) == spec.remaining)
    ensures r.Ordered? ==> multiset(r.chain) == multiset(globs)
    ensures r.Disconnected? ==> multiset(r.chain + r.remaining) == multiset(globs)
  {
    if |globs| == 0 {
      return NoGlobs;
    }
    ghost var spec := Order(old(Views(globs)));
    var ordered: seq<Glob> := [globs[0]];
    var rest: seq<Glob> := globs[1..];
    assert globs == ordered + rest;
    assert Views(ordered) == [Views(globs)[0]] && Views(rest) == Views(globs)[1..];
    while |rest| > 0
      invariant |ordered| > 0
      invariant multiset(ordered + rest) == multiset(globs)
      invariant forall g :: g in rest ==> g in globs
      invariant Extend(Views(ordered), Views(rest)) == spec
      decreases |rest|
    {
      var stuck;
      DistinctPermuted(ordered + rest, globs);
      stuck, ordered, rest := Round(ordered, rest);
      if stuck {
        return Disconnected(ordered, rest);
      }
    }
    r := Ordered(ordered);
  }

  // ---------------------------------------------------------------------------
  // Transformer: extents, shelf cursor and viewport

  /** The extents sentinel `1e100` of `clear` and `change_face`. */
  const BIG: real := 1e100

  /** The bounds folded over the edge start positions of an outer loop. */
  function Extents(b: Box, points: seq<Vec>): Box
    decreases |points|
  {
    if |points| == 0 then b
    else
      var p := points[0];
      Extents(Box(Min(p.x, b.minx), Min(p.y, b.miny), Max(p.x, b.maxx), Max(p.y, b.maxy)), points[1..])
  }

  /** Ruby's `[a, b].min`. */
  function Min(a: real, b: real): (m: real)
    ensures m <= a && m <= b && (m == a || m == b)
  {
    if a <= b then a else b
  }

  predicate Contains(b: Box, p: Vec) {
    b.minx <= p.x <= b.maxx && b.miny <= p.y <= b.maxy
  }

  /**
   * The folded extents contain every point and the starting box's corners, and
   * each extent is attained: by a point, or by the starting value.
   */
  lemma {:induction false} ExtentsBound(b: Box, points: seq<Vec>)
    ensures var e := Extents(b, points);
      && (forall k :: 0 <= k < |points| ==> Contains(e, points[k]))
      && e.minx <= b.minx && e.miny <= b.miny && e.maxx >= b.maxx && e.maxy >= b.maxy
      && (e.minx == b.minx || exists k :: 0 <= k < |points| && e.minx == points[k].x)
      && (e.maxx == b.maxx || exists k :: 0 <= k < |points| && e.maxx == points[k].x)
      && (e.miny == b.miny || exists k :: 0 <= k < |points| && e.miny == points[k].y)
      && (e.maxy == b.maxy || exists k :: 0 <= k < |points| && e.maxy == points[k].y)
    decreases |points|
  {
    if |points| > 0 {
      var p := points[0];
      var b' := Box(Min(p.x, b.minx), Min(p.y, b.miny), Max(p.x, b.maxx), Max(p.y, b.maxy));
      ExtentsBound(b', points[1..]);
      var e := Extents(b, points);
      assert e == Extents(b', points[1..]);
      forall k | 0 <= k < |points|
        ensures Contains(e, points[k])
      {
        if k > 0 {
          assert points[k] == points[1..][k - 1];
        }
      }
      if e.minx != b.minx {
        if e.minx == b'.minx {
          assert e.minx == points[0].x;
        } else {
          var k :| 0 <= k < |points[1..]| && e.minx == points[1..][k].x;
          assert e.minx == points[k + 1].x;
        }
      }
      if e.maxx != b.maxx {
        if e.maxx == b'.maxx {
          assert e.maxx == points[0].x;
        } else {
          var k :| 0 <= k < |points[1..]| && e.maxx == points[1..][k].x;
          assert e.maxx == points[k + 1].x;
        }
      }
      if e.miny != b.miny {
        if e.miny == b'.miny {
          assert e.miny == points[0].y;
        } else {
          var k :| 0 <= k < |points[1..]| && e.miny == points[1..][k].y;
          assert e.miny == points[k + 1].y;
        }
      }
      if e.maxy != b.maxy {
        if e.maxy == b'.maxy {
          assert e.maxy == points[0].y;
        } else {
          var k :| 0 <= k < |points[1..]| && e.maxy == points[1..][k].y;
          assert e.maxy == points[k + 1].y;
        }
      }
    }
  }

  /** The cursor, viewport extents and placement after one `layout_facegrp`. */
  datatype Sheet = Sheet(cursor: Cursor, viewMaxX: real, viewMaxY: real)

  /**
   * `layout_facegrp` on the values: the cursor advances as in `Advance`, the
   * viewport's x extent is raised to the advanced x before and after a wrap,
   * and its y extent to the new `y + rowheight`.
   */
  function LayoutStep(s: Sheet, b: Box, spacing: real, sheetWidth: real): Sheet {
    var advancedX := s.cursor.x + spacing + Width(b);
    var viewX := Max(s.viewMaxX, advancedX);
    var c := Advance(s.cursor, b, spacing, sheetWidth);
    Sheet(c, Max(viewX, c.x), Max(s.viewMaxY, c.y + c.rowHeight))
  }

  function LayoutRun(s: Sheet, boxes: seq<Box>, spacing: real, sheetWidth: real): Sheet
    decreases |boxes|
  {
    if |boxes| == 0 then s
    else LayoutRun(LayoutStep(s, boxes[0], spacing, sheetWidth), boxes[1..], spacing, sheetWidth)
  }

  lemma {:induction false} LayoutRunIsRun(s: Sheet, boxes: seq<Box>, spacing: real, sheetWidth: real)
    ensures LayoutRun(s, boxes, spacing, sheetWidth).cursor == Run(s.cursor, boxes, spacing, sheetWidth)
    decreases |boxes|
  {
    if |boxes| > 0 {
      LayoutRunIsRun(LayoutStep(s, boxes[0], spacing, sheetWidth), boxes[1..], spacing, sheetWidth);
    }
  }

  /**
   * The viewport only grows, and at the end it reaches past every placed
   * group: its x extent covers each group's right edge and its y extent each
   * group's bottom edge.
   */
  lemma {:induction false} ViewportCovers(s: Sheet, boxes: seq<Box>, spacing: real, sheetWidth: real)
    requires spacing >= 0.0
    requires forall b :: b in boxes ==> WellFormed(b)
    ensures var e := LayoutRun(s, boxes, spacing, sheetWidth);
      var placed := Placements(s.cursor, boxes, spacing, sheetWidth);
      && e.viewMaxX >= s.viewMaxX && e.viewMaxY >= s.viewMaxY
      && forall i :: 0 <= i < |placed| ==> placed[i].maxx <= e.viewMaxX && placed[i].maxy <= e.viewMaxY
    decreases |boxes|
  {
    if |boxes| > 0 {
      var s' := LayoutStep(s, boxes[0], spacing, sheetWidth);
      ViewportCovers(s', boxes[1..], spacing, sheetWidth);
      PlacementsUnfold(s.cursor, boxes, spacing, sheetWidth);
      var placed := Placements(s.cursor, boxes, spacing, sheetWidth);
      var later := Placements(s'.cursor, boxes[1..], spacing, sheetWidth);
      forall i | 1 <= i < |placed|
        ensures placed[i] == later[i - 1]
      {
      }
    }
  }

  /**
   * The layout state of `Transformer`: the extents of the current face's outer
   * loop, the shelf cursor, and the viewport `[0, 0, maxx, maxy]`. `SPACING`
   * and `SHEETWIDTH` are constants defined outside shapersvg/layout.rb, so
   * they are given to the constructor.
   */
  class Transformer {
    const spacing: real
    const sheetWidth: real
    var minx: real
    var miny: real
    var maxx: real
    var maxy: real
    var layoutx: real
    var layouty: real
    var rowheight: real
    var viewport: seq<real>

    /** The viewport has four entries, and its origin stays at 0, 0. */
    ghost predicate Valid()
      reads this
    {
      |viewport| == 4 && viewport[0] == 0.0 && viewport[1] == 0.0
    }

    function Bounds(): Box
      reads this
    {
      Box(minx, miny, maxx, maxy)
    }

    function Layout(): Sheet
      reads this
      requires Valid()
    {
      Sheet(Cursor(layoutx, layouty, rowheight), viewport[2], viewport[3])
    }

    /** `initialize`, which calls `clear`. */
    constructor (spacing: real, sheetWidth: real)
      ensures this.spacing == spacing && this.sheetWidth == sheetWidth
      ensures Valid()
      ensures Bounds() == Box(BIG, BIG, -BIG, -BIG)
      ensures layoutx == 0.0 && layouty == 0.0 && rowheight == 0.0
      ensures viewport == [0.0, 0.0, -BIG, -BIG]
    {
      this.spacing := spacing;
      this.sheetWidth := sheetWidth;
      minx, miny, maxx, maxy := BIG, BIG, -BIG, -BIG;
      layoutx, layouty, rowheight := 0.0, 0.0, 0.0;
      viewport := [0.0, 0.0, -BIG, -BIG];
    }

    /** `clear`: the cursor at the origin, empty extents and viewport. */
    method Clear()
      modifies this
      ensures Valid()
      ensures Bounds() == Box(BIG, BIG, -BIG, -BIG)
      ensures layoutx == 0.0 && layouty == 0.0 && rowheight == 0.0
      ensures viewport == [0.0, 0.0, -BIG, -BIG]
    {
      minx, miny, maxx, maxy := BIG, BIG, -BIG, -BIG;
      layoutx, layouty, rowheight := 0.0, 0.0, 0.0;
      viewport := [0.0, 0.0, -BIG, -BIG];
    }

    /** `change_face`: the extents of a new face start empty; the layout is kept. */
    method ChangeFace()
      requires Valid()
      modifies this
      ensures Valid()
      ensures Bounds() == Box(BIG, BIG, -BIG, -BIG)
      ensures Layout() == old(Layout())
    {
      minx, miny, maxx, maxy := BIG, BIG, -BIG, -BIG;
    }

    /** The bounds fold of `transform`, over the start positions of the loop's edges. */
    method AccumulateBounds(points: seq<Vec>)
      requires Valid()
      modifies this
      ensures Valid()
      ensures Bounds() == Extents(old(Bounds()), points)
      ensures Layout() == old(Layout())
    {
      var k := 0;
      while k < |points|
        invariant 0 <= k <= |points|
        invariant Valid() && Layout() == old(Layout())
        invariant Extents(Bounds(), points[k..]) == Extents(old(Bounds()), points)
      {
        var p := points[k];
        assert points[k..][1..] == points[k + 1..];
        minx := Min(p.x, minx);
        miny := Min(p.y, miny);
        maxx := Max(p.x, maxx);
        maxy := Max(p.y, maxy);
        k := k + 1;
      }
      assert points[k..] == [];
    }

    /**
     * `transform` without its host calls: for the outer loop the extents are
     * folded over the edge start positions, then the globs are reordered.
     */
    method Transform(globs: seq<Glob>, edgeStarts: seq<Vec>, outer: bool) returns (r: Outcome<Glob>)
      requires Valid() && Distinct(globs)
      modifies this, set g | g in globs
      ensures Valid() && Layout() == old(Layout())
      ensures Bounds() == if outer then Extents(old(Bounds()), edgeStarts) else old(Bounds())
      ensures var spec := Order(old(Views(globs)));
        && (r.Ordered? <==> spec.Ordered?)
        && (r.Disconnected? <==> spec.Disconnected?)
        && (r.NoGlobs? <==> spec.NoGlobs?)
        && (!r.NoGlobs? ==> Views(r.chain) == spec.chain)
        && (r.Disconnected? ==> Views(r.remaining) == spec.remaining)
      ensures r.Ordered? ==> multiset(r.chain) == multiset(globs)
      ensures r.Disconnected? ==> multiset(r.chain + r.remaining) == multiset(globs)
    {
      if outer {
        AccumulateBounds(edgeStarts);
      }
      r := Reorder(globs);
    }

    /**
     * `layout_facegrp`: the translation that puts the face group's min corner
     * on the cursor, then the cursor and viewport step of `LayoutStep`.
     */
    method LayoutFacegrp() returns (offset: Vec)
      requires Valid()
      modifies this
      ensures Valid() && Bounds() == old(Bounds())
      ensures offset == Offset(old(Layout()).cursor, Bounds())
      ensures Layout() == LayoutStep(old(Layout()), Bounds(), spacing, sheetWidth)
    {
      offset := Vec(layoutx - minx, layouty - miny);
      layoutx := layoutx + (spacing + maxx - minx);
      viewport := viewport[2 := Max(viewport[2], layoutx)];
      rowheight := Max(rowheight, maxy - miny);
      if layoutx > sheetWidth {
        layoutx := 0.0 + spacing;
        layouty := layouty + rowheight + spacing;
        rowheight := 0.0;
      }
      viewport := viewport[3 := Max(viewport[3], layouty + rowheight)];
      viewport := viewport[2 := Max(viewport[2], layoutx)];
    }
  }
}

/** Worked examples of `reorder` on concrete segments. */
module ShaperExamples {
  import opened Wrappers
  import opened Geometry
  import opened ShaperLayout

  /**
   * The scan skips a glob that does not connect: when b meets neither end of
   * a but c starts where a ends and b starts where c ends, the order is a, c, b.
   */
  lemma SkipsUnconnected(a: Part, b: Part, c: Part)
    requires !Connects(End(a), b) && SamePos(End(a), Start(c)) && SamePos(End(c), Start(b))
    ensures Order([a, b, c]) == Ordered([a, c, b])
  {
    assert [a, b, c][1..] == [b, c] && [b, c][1..] == [c];
    assert FindNext(End(a), [c]) == Some(Match(0, false));
    assert FindNext(End(a), [b, c]) == Some(Match(1, false));
    assert Without([b, c], 1) == [b];
    assert [a][0] == a && [a] + [Orient([b, c][1], false)] == [a, c];
    assert Extend([a], [b, c]) == Extend([a, c], [b]);
    assert FindNext(End([a, c][1]), [b]) == Some(Match(0, false));
    assert Without([b], 0) == [];
    assert [a, c] + [Orient([b][0], false)] == [a, c, b];
    assert Extend([a, c], [b]) == Extend([a, c, b], []);
  }

  /** A glob that meets the chain only with its own end is appended reversed. */
  lemma EndMatchReverses(a: Part, b: Part)
    requires !SamePos(End(a), Start(b)) && SamePos(End(a), End(b))
    ensures Order([a, b]) == Ordered([a, Flip(b)])
  {
    assert [a, b][1..] == [b];
    assert FindNext(End(a), [b]) == Some(Match(0, true));
    assert Without([b], 0) == [];
    assert Extend([a], [b]) == Extend([a, Flip(b)], []);
  }

  /**
   * A boundary of three globs whose middle one arrives the wrong way round:
   * b meets the end of a only with its own end, and c runs from the start of
   * b back to the start of a. `reorder` reverses b and the result closes.
   */
  lemma ReversedSideCloses(a: Part, b: Part, c: Part)
    requires !a.reversed && !b.reversed && !c.reversed
    requires !SamePos(End(a), Start(b)) && SamePos(End(a), End(b))
    requires SamePos(Start(b), Start(c)) && SamePos(End(c), Start(a))
    requires !Connects(End(a), c)
    ensures Order([a, b, c]) == Ordered([a, Flip(b), c]) && ClosedLoop([a, Flip(b), c])
  {
    var cyc := [a, Flip(b), c];
    assert Bases(cyc) == [a, b, c];
    assert ClosedLoop(cyc);
    assert ScanOriented(cyc);
    assert Unambiguous(cyc);
    var parts := [a, b, c];
    assert NoneReversed(parts) && Bases(parts) == Bases(cyc);
    OrderClosesLoop(parts, cyc);
  }
}
