/**
 * `insert_reference_slides` (template2slide/scripts/insert_reference_slides.py):
 * splices slides of a reference deck into the generated deck and moves them
 * into place. Slides are abstract identities; copying their content and
 * backgrounds is not modelled.
 */
module ReferenceSlides {
  import opened Wrappers
  import opened Text
  import opened Sequences
  import opened Deployment

  // ------------------------------------------------------------ normalisation

  /** `DEPLOYMENT_SLIDE_MAP`: the slide (0-based) of the architecture reference
      deck for each method name, None when that deck has none. */
  const SlideMap: map<string, Option<nat>> := map[
    "cloud" := Some(1), "on-premise" := Some(2), "on-prem" := Some(2), "hybrid" := Some(3),
    "hybrid-training-on-prem" := Some(4), "hybrid-training-onprem" := Some(4),
    "4g-vpn-bridge" := None, "vimov" := None]

  /** Key words of the lower-cased method the normalisation looks for. */
  predicate OnPremWord(l: string) {
    Contains(l, "on-prem") || Contains(l, "onprem")
  }

  /**
   * The normalisation in `get_deployment_method`, applied to the stored method
   * ("" when the key is missing). The rules are tried in order on the
   * lower-cased name; a name no rule recognises comes back lower-cased.
   */
  function NormaliseMethod(stored: string): (r: string)
    ensures var l := Lower(stored);
      Contains(l, "cloud") ==> r == "cloud"
    ensures var l := Lower(stored);
      !Contains(l, "cloud") && Contains(l, "hybrid") && Contains(l, "training") && OnPremWord(l)
      ==> r == "hybrid-training-on-prem"
    ensures var l := Lower(stored);
      !Contains(l, "cloud") && Contains(l, "hybrid") && !(Contains(l, "training") && OnPremWord(l))
      ==> r == "hybrid"
    ensures var l := Lower(stored);
      !Contains(l, "cloud") && !Contains(l, "hybrid") && OnPremWord(l) ==> r == "on-premise"
    ensures var l := Lower(stored);
      !Contains(l, "cloud") && !Contains(l, "hybrid") && !OnPremWord(l) && (Contains(l, "4g") || Contains(l, "vpn"))
      ==> r == "4g-vpn-bridge"
    ensures var l := Lower(stored);
      !Contains(l, "cloud") && !Contains(l, "hybrid") && !OnPremWord(l) && !Contains(l, "4g") && !Contains(l, "vpn")
      ==> r == (if Contains(l, "vimov") then "vimov" else l)
    ensures r in SlideMap || r == Lower(stored)
  {
    var l := Lower(stored);
    if Contains(l, "cloud") then "cloud"
    else if Contains(l, "hybrid") then
      if Contains(l, "training") && OnPremWord(l) then "hybrid-training-on-prem" else "hybrid"
    else if OnPremWord(l) then "on-premise"
    else if Contains(l, "4g") || Contains(l, "vpn") then "4g-vpn-bridge"
    else if Contains(l, "vimov") then "vimov"
    else l
  }

  /** Normalising a normalised name changes nothing: every name the rules
      produce is recognised by the rule that produced it. */
  lemma NormaliseIdempotent(stored: string)
    ensures NormaliseMethod(NormaliseMethod(stored)) == NormaliseMethod(stored)
  {
    var l := Lower(stored);
    var r := NormaliseMethod(stored);
    if r == "cloud" {
      CloudKey();
    } else if r == "hybrid" {
      HybridKey();
    } else if r == "hybrid-training-on-prem" {
      HybridTrainingOnPremKey();
    } else if r == "on-premise" {
      OnPremiseKey();
    } else if r == "4g-vpn-bridge" {
      FourGKey();
    } else if r == "vimov" {
      VimovKey();
    } else {
      assert r == l;
      LowerIdempotent(stored);
    }
  }

  lemma HybridTrainingOnPremKey()
    ensures NormaliseMethod("hybrid-training-on-prem") == "hybrid-training-on-prem"
  {
    var l := "hybrid-training-on-prem";
    LowerNoCapitals(l);
    NoCloud(l);
    HybridTrainingOnPremWords();
    var r := NormaliseMethod(l);
  }

  lemma HybridTrainingOnPremWords()
    ensures Contains("hybrid-training-on-prem", "hybrid")
    ensures Contains("hybrid-training-on-prem", "training")
    ensures OnPremWord("hybrid-training-on-prem")
  {
    var l := "hybrid-training-on-prem";
    assert l[0..6] == "hybrid";
    ContainsAt(l, "hybrid", 0);
    assert l[7..15] == "training";
    ContainsAt(l, "training", 7);
    assert l[16..23] == "on-prem";
    ContainsAt(l, "on-prem", 16);
  }

  lemma OnPremiseKey()
    ensures NormaliseMethod("on-premise") == "on-premise"
  {
    OnPremiseLower();
    OnPremiseNoCloud();
    OnPremiseNoHybrid();
    OnPremiseHasOnPrem();
  }

  lemma OnPremiseLower() ensures Lower("on-premise") == "on-premise" { LowerNoCapitals("on-premise"); }
  lemma OnPremiseNoCloud() ensures !Contains("on-premise", "cloud") { NoCloud("on-premise"); }
  lemma OnPremiseNoHybrid() ensures !Contains("on-premise", "hybrid") { NoHybrid("on-premise"); }
  lemma OnPremiseHasOnPrem() ensures OnPremWord("on-premise") {
    var l := "on-premise";
    assert l[0..7] == "on-prem";
    ContainsAt(l, "on-prem", 0);
  }

  /**
   * What reading the project-info file can give. `Unreadable` stands for every
   * exception the reader catches: a missing or unreadable file, text that is
   * not JSON, and a `deployment_method` that is null or not a string, on
   * which `.lower()` raises. `Readable` holds the string stored under
   * `deployment_method` (at the top level or under `project_info`), if any.
   */
  datatype ProjectFile = Unreadable | Readable(deploymentMethod: Option<string>)

  /** `get_deployment_method`: None exactly when reading raised; otherwise the
      stored method, or the empty string when there is none, normalised. */
  function GetDeploymentMethod(f: ProjectFile): (r: Option<string>)
    ensures r.None? <==> f.Unreadable?
    ensures f.Readable? && f.deploymentMethod.None? ==> r == Some("")
    ensures f.Readable? ==>
              r == Some(NormaliseMethod(if f.deploymentMethod.Some? then f.deploymentMethod.value else ""))
  {
    match f
    case Unreadable => None
    case Readable(m) =>
      var stored := match m case Some(s) => s case None => "";
      Some(NormaliseMethod(stored))
  }

  /** A file that already stores a normalised method reads back the same value. */
  lemma GetDeploymentMethodStable(stored: string)
    ensures GetDeploymentMethod(Readable(Some(NormaliseMethod(stored)))) == GetDeploymentMethod(Readable(Some(stored)))
  {
    NormaliseIdempotent(stored);
  }

  lemma ContainsSelf(s: string)
    ensures Contains(s, s)
  {
    assert s[..|s|] == s;
  }

  /** Each deployment name the rest of the pipeline produces normalises to a
      key of the slide map. */
  lemma EveryMethodHasSlideKey(m: Method)
    ensures NormaliseMethod(Name(m)) in SlideMap
  {
    match m
    case OnPrem => OnPremKey();
    case Cloud => CloudKey();
    case Hybrid => HybridKey();
    case HybridTrainingLocal => HybridTrainingLocalIsHybrid();
    case FourGVpnBridge => FourGKey();
    case Vimov => VimovKey();
  }

  lemma CloudKey()
    ensures NormaliseMethod("cloud") == "cloud"
  {
    LowerNoCapitals("cloud");
    ContainsSelf("cloud");
  }

  lemma OnPremKey()
    ensures NormaliseMethod("on-prem") == "on-premise"
  {
    var l := "on-prem";
    LowerNoCapitals(l);
    ContainsSelf(l);
    NoCloud(l);
    NoHybrid(l);
  }

  lemma HybridKey()
    ensures NormaliseMethod("hybrid") == "hybrid"
  {
    var l := "hybrid";
    LowerNoCapitals(l);
    ContainsSelf(l);
    NoCloud(l);
    NoOnPrem(l);
  }

  lemma FourGKey()
    ensures NormaliseMethod("4g-vpn-bridge") == "4g-vpn-bridge"
  {
    var l := "4g-vpn-bridge";
    LowerNoCapitals(l);
    FourGVpnBridgeHasFourG();
    NormaliseFourG(l);
  }

  lemma NormaliseFourG(l: string)
    requires Lower(l) == l && Contains(l, "4g") && 'c' !in l && 'y' !in l && 'o' !in l
    ensures NormaliseMethod(l) == "4g-vpn-bridge"
  {
    NoCloud(l);
    NoHybrid(l);
    NoWord(l, "on-prem", 0);
    NoWord(l, "onprem", 0);
  }

  lemma FourGVpnBridgeHasFourG()
    ensures Contains("4g-vpn-bridge", "4g")
  {
    ContainsMiddle("", "4g", "-vpn-bridge");
  }

  lemma VimovKey()
    ensures NormaliseMethod("vimov") == "vimov"
  {
    var l := "vimov";
    LowerNoCapitals(l);
    NoCloud(l);
    NoHybrid(l);
    NoOnPrem(l);
    NoFourG(l);
    NoVpn(l);
  }

  /** "hybrid-training-local" lacks the on-prem word and becomes plain "hybrid". */
  lemma HybridTrainingLocalIsHybrid()
    ensures NormaliseMethod("hybrid-training-local") == "hybrid"
  {
    var l := "hybrid-training-local";
    LowerNoCapitals(l);
    HybridTrainingLocalHasHybrid();
    NormaliseHybrid(l);
  }

  lemma NormaliseHybrid(l: string)
    requires Lower(l) == l && Contains(l, "hybrid") && 'u' !in l && 'p' !in l
    ensures NormaliseMethod(l) == "hybrid"
  {
    NoWord(l, "cloud", 3);
    NoOnPrem(l);
  }

  lemma HybridTrainingLocalHasHybrid()
    ensures Contains("hybrid-training-local", "hybrid")
  {
    ContainsMiddle("", "hybrid", "-training-local");
  }

  /** A string that lacks one of the characters of `w` does not contain `w`. */
  lemma NoWord(s: string, w: string, k: nat)
    requires k < |w| && w[k] !in s
    ensures !Contains(s, w)
  {
    if Contains(s, w) {
      var i := ContainsWitness(s, w);
    }
  }

  lemma NoCloud(s: string) requires 'c' !in s ensures !Contains(s, "cloud") { NoWord(s, "cloud", 0); }
  lemma NoHybrid(s: string) requires 'y' !in s ensures !Contains(s, "hybrid") { NoWord(s, "hybrid", 1); }
  lemma NoOnPrem(s: string) requires 'p' !in s ensures !OnPremWord(s) {
    NoWord(s, "on-prem", 3);
    NoWord(s, "onprem", 2);
  }
  lemma NoFourG(s: string) requires '4' !in s ensures !Contains(s, "4g") { NoWord(s, "4g", 0); }
  lemma NoVpn(s: string) requires 'p' !in s ensures !Contains(s, "vpn") { NoWord(s, "vpn", 1); }

  // ------------------------------------------------------------- the plan

  /** A slide of the working deck: the i-th generated slide, or slide j
      (0-based) of the "Available" reference deck. */
  datatype SlideId = Generated(i: nat) | Available(j: nat)

  function GeneratedSlides(n: nat): (r: seq<SlideId>)
    ensures |r| == n
  {
    seq(n, i requires 0 <= i < n => Generated(i))
  }

  function AvailableSlides(from: nat, to: nat): (r: seq<SlideId>)
    requires from <= to
    ensures |r| == to - from
  {
    seq(to - from, i requires 0 <= i < to - from => Available(from + i))
  }

  /** A move takes the slide at source index (in the deck before any move) to
      a target index. */
  datatype Move = Move(source: nat, target: nat)

  /**
   * Steps 2 and 3: reference slides 2-10 are appended only when the reference
   * deck has at least 10 slides, and slides 11-25 only when it has at least
   * 25 (`available` is 0 when it is missing).
   */
  function InitialDeck(generated: nat, available: nat): (deck: seq<SlideId>)
    ensures |deck| == generated + (if available >= 10 then 9 else 0) + (if available >= 25 then 15 else 0)
    ensures forall k :: 0 <= k < generated ==> deck[k] == Generated(k)
    ensures forall k :: generated <= k < |deck| ==> deck[k] == Available(k - generated + 1)
  {
    GeneratedSlides(generated)
    + (if available >= 10 then AvailableSlides(1, 10) else [])
    + (if available >= 25 then AvailableSlides(10, 25) else [])
  }

  /** `n` moves, the i-th taking the slide at `first + i` to index `i + 1`. */
  function BlockMoves(first: nat, n: nat): (moves: seq<Move>)
    ensures |moves| == n
    ensures forall i :: 0 <= i < n ==> moves[i] == Move(first + i, i + 1)
  {
    if n == 0 then [] else BlockMoves(first, n - 1) + [Move(first + n - 1, n)]
  }

  /** Each of slides 2-10 is sent from where it was appended to index 1..9,
      right after the title slide. */
  function PlannedMoves(generated: nat, available: nat): (moves: seq<Move>)
    ensures |moves| == if available >= 10 then 9 else 0
    ensures forall k :: 0 <= k < |moves| ==>
              moves[k].target == k + 1 && moves[k].source < |InitialDeck(generated, available)|
              && InitialDeck(generated, available)[moves[k].source] == Available(k + 1)
  {
    if available >= 10 then BlockMoves(generated, 9) else []
  }

  // ------------------------------------------------------------- sorting

  /** The sort key `(target, source)`. */
  predicate MoveLe(a: Move, b: Move) {
    a.target < b.target || (a.target == b.target && a.source <= b.source)
  }

  predicate SortedMoves(ms: seq<Move>) {
    forall i, j :: 0 <= i < j < |ms| ==> MoveLe(ms[i], ms[j])
  }

  function InsertMove(m: Move, ms: seq<Move>): (r: seq<Move>)
    requires SortedMoves(ms)
    ensures SortedMoves(r)
    ensures multiset(r) == multiset(ms) + multiset{m}
    decreases |ms|
  {
    if ms == [] || MoveLe(m, ms[0]) then
      InsertFront(m, ms);
      [m] + ms
    else
      var rest := InsertMove(m, ms[1..]);
      InsertBehind(m, ms, rest);
      [ms[0]] + rest
  }

  /** A move no later than the head of a sorted list can go in front. */
  lemma InsertFront(m: Move, ms: seq<Move>)
    requires SortedMoves(ms) && (ms == [] || MoveLe(m, ms[0]))
    ensures SortedMoves([m] + ms)
  {
    forall i, j | 0 <= i < j < |[m] + ms|
      ensures MoveLe(([m] + ms)[i], ([m] + ms)[j])
    {
      if i == 0 {
        assert MoveLe(ms[0], ms[j - 1]) || j == 1;
      }
    }
  }

  /** The head of a sorted list stays in front of the rest with `m` inserted. */
  lemma InsertBehind(m: Move, ms: seq<Move>, rest: seq<Move>)
    requires SortedMoves(ms) && ms != [] && !MoveLe(m, ms[0])
    requires SortedMoves(rest) && multiset(rest) == multiset(ms[1..]) + multiset{m}
    ensures SortedMoves([ms[0]] + rest)
    ensures multiset([ms[0]] + rest) == multiset(ms) + multiset{m}
  {
    assert ms == [ms[0]] + ms[1..];
    forall x | x in rest
      ensures MoveLe(ms[0], x)
    {
      assert x in multiset(rest);
      if x != m {
        assert x in multiset(ms[1..]);
      }
    }
    forall i, j | 0 <= i < j < |[ms[0]] + rest|
      ensures MoveLe(([ms[0]] + rest)[i], ([ms[0]] + rest)[j])
    {
      if i == 0 {
        assert rest[j - 1] in rest;
      } else {
        assert ([ms[0]] + rest)[i] == rest[i - 1] && ([ms[0]] + rest)[j] == rest[j - 1];
      }
    }
  }

  /** `all_reorders.sort(key=lambda x: (x[1], x[0]))`. */
  function SortMoves(ms: seq<Move>): (r: seq<Move>)
    ensures SortedMoves(r)
    ensures multiset(r) == multiset(ms)
    decreases |ms|
  {
    if ms == [] then []
    else
      assert ms == [ms[0]] + ms[1..];
      InsertMove(ms[0], SortMoves(ms[1..]))
  }

  /** Sorting an already sorted list changes nothing. */
  lemma {:induction false} SortSorted(ms: seq<Move>)
    requires SortedMoves(ms)
    ensures SortMoves(ms) == ms
    decreases |ms|
  {
    if ms != [] {
      SortSorted(ms[1..]);
    }
  }

  lemma PlannedMovesSorted(generated: nat, available: nat)
    ensures SortedMoves(PlannedMoves(generated, available))
  {
  }

  // ----------------------------------------------------------- one move

  function Min(a: int, b: int): int {
    if a <= b then a else b
  }

  /** Remove the slide at `a`, then insert it at `min(target, len)` of what is left. */
  function MoveTo(deck: seq<SlideId>, a: nat, target: nat): (r: seq<SlideId>)
    requires a < |deck|
    ensures |r| == |deck|
    ensures multiset(r) == multiset(deck)
    ensures r[Min(target, |deck| - 1)] == deck[a]
  {
    var rest := deck[..a] + deck[a + 1..];
    var ins := Min(target, |rest|);
    RemoveMultiset(deck, a);
    InsertMultiset(rest, ins, deck[a]);
    rest[..ins] + [deck[a]] + rest[ins..]
  }

  /** Where a slide at `p` other than the moved one ends up. */
  function Shift(p: nat, a: nat, ins: nat): nat {
    var p1 := if p > a then p - 1 else p;
    if p1 >= ins then p1 + 1 else p1
  }

  lemma MoveToShift(deck: seq<SlideId>, a: nat, target: nat, p: nat)
    requires a < |deck| && p < |deck| && p != a
    ensures Shift(p, a, Min(target, |deck| - 1)) < |deck|
    ensures MoveTo(deck, a, target)[Shift(p, a, Min(target, |deck| - 1))] == deck[p]
  {
  }

  lemma MoveToDistinct(deck: seq<SlideId>, a: nat, target: nat)
    requires a < |deck| && Distinct(deck)
    ensures Distinct(MoveTo(deck, a, target))
  {
    var r := MoveTo(deck, a, target);
    var ins := Min(target, |deck| - 1);
    forall i, j | 0 <= i < j < |r|
      ensures r[i] != r[j]
    {
      var pi := if i == ins then a else Unshift(i, a, ins);
      var pj := if j == ins then a else Unshift(j, a, ins);
      if i != ins { MoveToShift(deck, a, target, pi); }
      if j != ins { MoveToShift(deck, a, target, pj); }
    }
  }

  /** The position before the move of what sits at `q != ins` after it. */
  function Unshift(q: nat, a: nat, ins: nat): (p: nat)
    requires q != ins
    ensures p != a && Shift(p, a, ins) == q
  {
    var q1 := if q > ins then q - 1 else q;
    if q1 >= a then q1 + 1 else q1
  }

  // ------------------------------------------------------------ the loop

  /** One move of the reference semantics: the slide first at `m.source` is
      looked up by identity in the current deck and moved. */
  function Step(deck: seq<SlideId>, cur: seq<SlideId>, m: Move): (r: seq<SlideId>)
    requires multiset(cur) == multiset(deck)
    ensures |r| == |cur| && multiset(r) == multiset(deck)
  {
    if m.source < |deck| then
      var a := IndexOf(cur, deck[m.source]);
      assert deck[m.source] in multiset(cur);
      MoveTo(cur, a, m.target)
    else cur
  }

  /**
   * Reference semantics of the reorder: each move finds its slide by identity
   * (the slide first at `source`) and moves it.
   */
  function Reordered(deck: seq<SlideId>, moves: seq<Move>): (r: seq<SlideId>)
    ensures |r| == |deck| && multiset(r) == multiset(deck)
    decreases |moves|
  {
    if moves == [] then deck
    else Step(deck, Reordered(deck, moves[..|moves| - 1]), moves[|moves| - 1])
  }

  lemma ReorderedSnoc(deck: seq<SlideId>, moves: seq<Move>, i: nat)
    requires i < |moves|
    ensures Reordered(deck, moves[..i + 1]) == Step(deck, Reordered(deck, moves[..i]), moves[i])
  {
    assert moves[..i + 1][..i] == moves[..i];
  }

  /** `positions` sends each index of `deck` to where that slide sits in `r`,
      and no two indices to the same place. */
  ghost predicate Tracks(deck: seq<SlideId>, r: seq<SlideId>, positions: map<nat, nat>) {
    (forall k: nat :: k in positions <==> k < |deck|)
    && (forall k :: k in positions ==> positions[k] < |r| && r[positions[k]] == deck[k])
    && (forall k1, k2 :: k1 in positions && k2 in positions && k1 != k2 ==> positions[k1] != positions[k2])
  }

  /** The update after a move: the moved slide is at `ins`, the others shift. */
  function ShiftPositions(positions: map<nat, nat>, source: nat, a: nat, ins: nat): (p: map<nat, nat>)
    ensures forall k: nat :: k in p <==> k in positions
  {
    map k: nat | k in positions :: if k == source then ins else Shift(positions[k], a, ins)
  }

  /** One move keeps the position map exact. */
  lemma TracksStep(deck: seq<SlideId>, r: seq<SlideId>, positions: map<nat, nat>, source: nat, target: nat)
    requires |r| == |deck| && Tracks(deck, r, positions) && source in positions
    ensures var a := positions[source];
            Tracks(deck, MoveTo(r, a, target), ShiftPositions(positions, source, a, Min(target, |r| - 1)))
  {
    var a := positions[source];
    var ins := Min(target, |r| - 1);
    var r' := MoveTo(r, a, target);
    var p := ShiftPositions(positions, source, a, ins);
    forall k | k in p
      ensures p[k] < |r'| && r'[p[k]] == deck[k]
    {
      if k != source {
        assert positions[k] != a;
        MoveToShift(r, a, target, positions[k]);
      }
    }
    ShiftInjective(a, ins);
    forall k1, k2 | k1 in p && k2 in p && k1 != k2
      ensures p[k1] != p[k2]
    {
      if k1 != source && k2 != source {
        assert positions[k1] != positions[k2];
      } else if k1 == source {
        assert positions[k2] != a;
      } else {
        assert positions[k1] != a;
      }
    }
  }

  /**
   * One iteration of the reorder loop: look the slide up through `positions`,
   * move it, and update the positions as the source does. A move whose source
   * lies beyond the deck is skipped.
   */
  method ApplyMove(deck: seq<SlideId>, r: seq<SlideId>, positions: map<nat, nat>, m: Move)
    returns (r': seq<SlideId>, positions': map<nat, nat>)
    requires |r| == |deck| && Tracks(deck, r, positions)
    ensures |r'| == |r| && multiset(r') == multiset(r)
    ensures Tracks(deck, r', positions')
    ensures Distinct(deck) && Distinct(r) && multiset(r) == multiset(deck) ==>
              Distinct(r') && r' == Step(deck, r, m)
  {
    r', positions' := r, positions;
    if m.source < |deck| {
      var a := positions[m.source];
      if a < |r| {
        if Distinct(deck) && Distinct(r) {
          IndexOfAt(r, a);
          MoveToDistinct(r, a, m.target);
        }
        TracksStep(deck, r, positions, m.source, m.target);
        positions' := ShiftPositions(positions, m.source, a, Min(m.target, |r| - 1));
        r' := MoveTo(r, a, m.target);
      }
    }
  }

  /**
   * The reorder loop: `positions` maps each original index to the slide's
   * current index. The result is a rearrangement of the deck, the map stays
   * exact, and for a deck without repeated slides it agrees with finding each
   * slide by identity.
   */
  method Reorder(deck: seq<SlideId>, moves: seq<Move>) returns (r: seq<SlideId>, positions: map<nat, nat>)
    ensures |r| == |deck| && multiset(r) == multiset(deck)
    ensures Tracks(deck, r, positions)
    ensures Distinct(deck) ==> r == Reordered(deck, moves)
  {
    r := deck;
    positions := IdentityPositions(|deck|);
    TracksIdentity(deck, positions);
    assert moves[..0] == [];
    var i := 0;
    while i < |moves|
      invariant 0 <= i <= |moves|
      invariant ReorderedSoFar(deck, moves[..i], r, positions)
    {
      r, positions := ApplyMoveAt(deck, moves, i, r, positions);
      i := i + 1;
    }
    assert moves[..i] == moves;
  }

  /** The loop invariant of `Reorder` after the moves `done`. */
  ghost predicate ReorderedSoFar(deck: seq<SlideId>, done: seq<Move>, r: seq<SlideId>, positions: map<nat, nat>) {
    |r| == |deck| && multiset(r) == multiset(deck) && Tracks(deck, r, positions)
    && (Distinct(deck) ==> Distinct(r) && r == Reordered(deck, done))
  }

  /** `ApplyMove` with the `i`-th move, keeping the loop invariant. */
  method ApplyMoveAt(deck: seq<SlideId>, moves: seq<Move>, i: nat, r: seq<SlideId>, positions: map<nat, nat>)
    returns (r': seq<SlideId>, positions': map<nat, nat>)
    requires i < |moves| && ReorderedSoFar(deck, moves[..i], r, positions)
    ensures ReorderedSoFar(deck, moves[..i + 1], r', positions')
  {
    ReorderedSnoc(deck, moves, i);
    r', positions' := ApplyMove(deck, r, positions, moves[i]);
  }

  lemma TracksIdentity(deck: seq<SlideId>, positions: map<nat, nat>)
    requires positions == IdentityPositions(|deck|)
    ensures Tracks(deck, deck, positions)
  {
  }

  /** Every index below `n` mapped to itself. */
  function IdentityPositions(n: nat): (positions: map<nat, nat>)
    ensures forall k: nat :: k in positions <==> k < n
    ensures forall k :: k in positions ==> positions[k] == k
  {
    if n == 0 then map[] else IdentityPositions(n - 1)[n - 1 := n - 1]
  }

  lemma IndexOfAt(r: seq<SlideId>, a: nat)
    requires a < |r| && Distinct(r)
    ensures IndexOf(r, r[a]) == a
  {
    IndexOfDistinct(r, a);
  }

  /** Positions other than the moved one stay apart, and none lands on `ins`. */
  lemma ShiftInjective(a: nat, ins: nat)
    ensures forall p, q :: p != a && q != a && p != q ==> Shift(p, a, ins) != Shift(q, a, ins)
    ensures forall p :: p != a ==> Shift(p, a, ins) != ins
  {
  }

  // ------------------------------------------------------------ the result

  /**
   * The deck `G + A + T` after the first `k` block moves: the first slide of
   * `G`, then `A[..k]`, the rest of `G`, the rest of `A`, and `T`.
   */
  function Spliced(G: seq<SlideId>, A: seq<SlideId>, T: seq<SlideId>, k: nat): (r: seq<SlideId>)
    requires |G| >= 1 && k <= |A|
    ensures multiset(r) == multiset(G + A + T)
  {
    assert G == [G[0]] + G[1..];
    assert A == A[..k] + A[k..];
    [G[0]] + A[..k] + G[1..] + A[k..] + T
  }

  /** An element absent from `front` is first found right after it. */
  lemma IndexOfAfter(front: seq<SlideId>, x: SlideId, back: seq<SlideId>)
    requires x !in front
    ensures IndexOf(front + [x] + back, x) == |front|
  {
    var s := front + [x] + back;
    assert s[|front|] == x;
    assert forall i :: 0 <= i < |front| ==> s[i] == front[i];
  }

  /** Moving the element just after `front` back to index `k` inside `front`. */
  lemma MoveBack(front: seq<SlideId>, x: SlideId, back: seq<SlideId>, k: nat)
    requires k <= |front|
    ensures MoveTo(front + [x] + back, |front|, k) == front[..k] + [x] + front[k..] + back
  {
    var deck := front + [x] + back;
    var a := |front|;
    assert deck[..a] == front;
    assert deck[a + 1..] == back;
    var rest := deck[..a] + deck[a + 1..];
    assert rest[..k] == front[..k];
    assert rest[k..] == front[k..] + back;
  }

  /** In a duplicate-free `G + A + T`, `A[j]` is neither in `G` nor elsewhere in `A`. */
  lemma BlockElementFresh(G: seq<SlideId>, A: seq<SlideId>, T: seq<SlideId>, j: nat)
    requires Distinct(G + A + T) && j < |A|
    ensures A[j] !in G && A[j] !in A[..j]
  {
    var d := G + A + T;
    assert d[|G| + j] == A[j];
    forall i | 0 <= i < |G| ensures G[i] != A[j] { assert d[i] == G[i]; }
    forall i | 0 <= i < j ensures A[..j][i] != A[j] { assert d[|G| + i] == A[i]; }
  }

  /** `Spliced(k - 1)` split around `A[k - 1]`, which it holds once, after
      `k - 1 + |G|` other slides. */
  lemma SplicedAround(G: seq<SlideId>, A: seq<SlideId>, T: seq<SlideId>, k: nat)
    requires |G| >= 1 && 0 < k <= |A| && Distinct(G + A + T)
    ensures var front := [G[0]] + A[..k - 1] + G[1..];
            Spliced(G, A, T, k - 1) == front + [A[k - 1]] + (A[k..] + T)
            && IndexOf(Spliced(G, A, T, k - 1), A[k - 1]) == |front|
  {
    var x := A[k - 1];
    var front := [G[0]] + A[..k - 1] + G[1..];
    assert A[k - 1..] == [x] + A[k..];
    BlockElementFresh(G, A, T, k - 1);
    assert x !in G[1..];
    IndexOfAfter(front, x, A[k..] + T);
  }

  /** Putting `A[k - 1]` back after `A[..k - 1]` gives `Spliced(k)`. */
  lemma SplicedRegroup(G: seq<SlideId>, A: seq<SlideId>, T: seq<SlideId>, k: nat)
    requires |G| >= 1 && 0 < k <= |A|
    ensures var front := [G[0]] + A[..k - 1] + G[1..];
            front[..k] + [A[k - 1]] + front[k..] + (A[k..] + T) == Spliced(G, A, T, k)
  {
    var front := [G[0]] + A[..k - 1] + G[1..];
    assert front[..k] == [G[0]] + A[..k - 1];
    assert front[k..] == G[1..];
    assert A[..k - 1] + [A[k - 1]] == A[..k];
  }

  /** One block move takes `Spliced(k - 1)` to `Spliced(k)`. */
  lemma SplicedStep(G: seq<SlideId>, A: seq<SlideId>, T: seq<SlideId>, k: nat)
    requires |G| >= 1 && 0 < k <= |A| && Distinct(G + A + T)
    ensures Step(G + A + T, Spliced(G, A, T, k - 1), Move(|G| + k - 1, k)) == Spliced(G, A, T, k)
  {
    var deck := G + A + T;
    var x := A[k - 1];
    assert deck[|G| + k - 1] == x;
    var front := [G[0]] + A[..k - 1] + G[1..];
    var back := A[k..] + T;
    var cur := Spliced(G, A, T, k - 1);
    SplicedAround(G, A, T, k);
    MoveBack(front, x, back, k);
    SplicedRegroup(G, A, T, k);
    StepAt(deck, cur, Move(|G| + k - 1, k), |front|);
  }

  /** A move whose slide is found at `a` is `MoveTo(cur, a, target)`. */
  lemma StepAt(deck: seq<SlideId>, cur: seq<SlideId>, m: Move, a: nat)
    requires multiset(cur) == multiset(deck) && m.source < |deck|
    requires a < |cur| && IndexOf(cur, deck[m.source]) == a
    ensures Step(deck, cur, m) == MoveTo(cur, a, m.target)
  {
  }

  /** The first `k` block moves, applied by identity, give `Spliced(k)`. */
  lemma {:induction false} SplicedReordered(G: seq<SlideId>, A: seq<SlideId>, T: seq<SlideId>, k: nat)
    requires |G| >= 1 && k <= |A| && Distinct(G + A + T)
    ensures Reordered(G + A + T, BlockMoves(|G|, k)) == Spliced(G, A, T, k)
    decreases k
  {
    if k == 0 {
      SplicedNone(G, A, T);
    } else {
      var moves := BlockMoves(|G|, k);
      assert moves[..k - 1] == BlockMoves(|G|, k - 1);
      SplicedReordered(G, A, T, k - 1);
      SplicedStep(G, A, T, k);
      ReorderedLast(G + A + T, moves);
    }
  }

  lemma SplicedNone(G: seq<SlideId>, A: seq<SlideId>, T: seq<SlideId>)
    requires |G| >= 1
    ensures Spliced(G, A, T, 0) == G + A + T
  {
    assert A[..0] == [] && A[0..] == A;
    assert G == [G[0]] + G[1..];
  }

  lemma ReorderedLast(deck: seq<SlideId>, moves: seq<Move>)
    requires |moves| > 0
    ensures Reordered(deck, moves) == Step(deck, Reordered(deck, moves[..|moves| - 1]), moves[|moves| - 1])
  {
  }

  /**
   * With a non-empty generated deck and a full reference deck, the title slide
   * stays first, reference slides 2-10 follow it in order, then the rest of
   * the generated slides, then reference slides 11-25.
   */
  lemma FinalOrder(generated: nat, available: nat)
    requires generated >= 1 && available >= 10
    ensures Reordered(InitialDeck(generated, available), SortMoves(PlannedMoves(generated, available))) ==
              [Generated(0)] + AvailableSlides(1, 10) + GeneratedSlides(generated)[1..]
              + (if available >= 25 then AvailableSlides(10, 25) else [])
  {
    var G := GeneratedSlides(generated);
    var A := AvailableSlides(1, 10);
    var T := if available >= 25 then AvailableSlides(10, 25) else [];
    var moves := PlannedMoves(generated, available);
    PlannedMovesSorted(generated, available);
    SortSorted(moves);
    assert moves == BlockMoves(|G|, 9);
    var deck := InitialDeck(generated, available);
    assert deck == G + A + T;
    InitialDeckDistinct(generated, available);
    SplicedReordered(G, A, T, 9);
    SplicedAll(G, A, T);
    assert G[0] == Generated(0);
  }

  lemma SplicedAll(G: seq<SlideId>, A: seq<SlideId>, T: seq<SlideId>)
    requires |G| >= 1
    ensures Spliced(G, A, T, |A|) == [G[0]] + A + G[1..] + T
  {
    assert A[..|A|] == A && A[|A|..] == [];
  }

  lemma InitialDeckDistinct(generated: nat, available: nat)
    ensures Distinct(InitialDeck(generated, available))
  {
    var d := InitialDeck(generated, available);
    forall i, j | 0 <= i < j < |d|
      ensures d[i] != d[j]
    {
      if i < generated && j < generated {
        assert d[i] == Generated(i) && d[j] == Generated(j);
      } else if i >= generated {
        assert d[i] == Available(i - generated + 1) && d[j] == Available(j - generated + 1);
      }
    }
  }

  /**
   * Steps 2 and 3 and the reorder together: the moves are sorted by
   * (target, source) and applied by the position-tracking loop. The slide
   * deck keeps every slide once, and with a full reference deck it ends in the
   * order `FinalOrder` states.
   */
  method InsertReferenceSlides(generated: nat, available: nat) returns (deck: seq<SlideId>)
    ensures multiset(deck) == multiset(InitialDeck(generated, available))
    ensures |deck| == generated + (if available >= 10 then 9 else 0) + (if available >= 25 then 15 else 0)
    ensures generated >= 1 && available >= 10 ==>
              deck == [Generated(0)] + AvailableSlides(1, 10) + GeneratedSlides(generated)[1..]
                      + (if available >= 25 then AvailableSlides(10, 25) else [])
  {
    var initial := InitialDeck(generated, available);
    var moves := SortMoves(PlannedMoves(generated, available));
    InitialDeckDistinct(generated, available);
    var positions;
    deck, positions := Reorder(initial, moves);
    if generated >= 1 && available >= 10 {
      FinalOrder(generated, available);
    }
  }
}
