/**
The scale cookie of blk-iolatency: a parent moves it down when a group misses its latency target and up
again later; each group follows it and sets its queue depth. qd is the queue's nr_requests, which does
not change.
*/
module Iolatency {
  const DEFAULT := 1_000_000
  const UINT_MAX := 0xFFFF_FFFF

  function Max(a: nat, b: nat): nat {
    if a > b then a else b
  }

  /** scale_amount */
  function Amount(qd: nat, up: bool): nat {
    Max(if up then qd / 16 else qd / 4, 1)
  }

  /** scale_cookie_change */
  function Moved(cookie: int, qd: nat, up: bool): int {
    var scale := Amount(qd, up);
    var diff := if cookie < DEFAULT then DEFAULT - cookie else 0;
    if up then
      if scale + cookie > DEFAULT then DEFAULT
      else if diff > qd then cookie + 1
      else cookie + scale
    else if diff > qd then
      if diff < 2 * qd then cookie - 1 else cookie
    else cookie - scale
  }

  // ----- the cookie -----

  /** The cookie is at most 2 * qd below the default, and never above it. */
  ghost predicate CookieOk(cookie: int, qd: nat) {
    0 <= DEFAULT - cookie <= 2 * qd
  }

  lemma MovedOk(cookie: int, qd: nat, up: bool)
    requires qd >= 1 && CookieOk(cookie, qd)
    ensures CookieOk(Moved(cookie, qd, up), qd)
  {
  }

  /** How many parts of size n make up d. */
  function Parts(d: nat, n: nat): nat
    requires n >= 1
  {
    if d == 0 then 0 else if d <= n then 1 else 1 + Parts(d - n, n)
  }

  /** How many moves up it takes to get back to the default from d below it. */
  function Climb(d: nat, qd: nat): nat {
    if d <= qd then Parts(d, Amount(qd, true)) else d - qd + Parts(qd, Amount(qd, true))
  }

  lemma UpClimbs(cookie: int, qd: nat)
    requires qd >= 1 && cookie < DEFAULT
    ensures Moved(cookie, qd, true) <= DEFAULT
    ensures Climb(DEFAULT - Moved(cookie, qd, true), qd) == Climb(DEFAULT - cookie, qd) - 1
  {
  }

  function MovedUp(cookie: int, qd: nat, times: nat): int
    decreases times
  {
    if times == 0 then cookie else MovedUp(Moved(cookie, qd, true), qd, times - 1)
  }

  /** It takes exactly that many moves up, no fewer. */
  lemma {:induction false} ClimbExact(cookie: int, qd: nat, times: nat)
    requires qd >= 1 && cookie <= DEFAULT
    ensures MovedUp(cookie, qd, times) <= DEFAULT
    ensures MovedUp(cookie, qd, times) == DEFAULT <==> times >= Climb(DEFAULT - cookie, qd)
    decreases times
  {
    if times > 0 {
      if cookie < DEFAULT {
        UpClimbs(cookie, qd);
      } else {
        assert Moved(cookie, qd, true) == DEFAULT;
      }
      ClimbExact(Moved(cookie, qd, true), qd, times - 1);
    } else if cookie < DEFAULT {
      UpClimbs(cookie, qd);
    }
  }

  lemma {:induction false} PartsGrow(a: nat, b: nat, n: nat)
    requires n >= 1 && a <= b
    ensures Parts(a, n) <= Parts(b, n)
  {
    if b > n && a > n { PartsGrow(a - n, b - n, n); }
  }

  /** Parts is division rounded up. */
  lemma {:induction false} PartsIsCeiling(d: nat, n: nat)
    requires n >= 1
    ensures (Parts(d, n) - 1) * n < d <= Parts(d, n) * n || d == Parts(d, n) == 0
  {
    if d > n { PartsIsCeiling(d - n, n); }
  }

  /** From any reachable cookie, qd moves and one per part of qd are enough. */
  lemma ClimbBound(cookie: int, qd: nat)
    requires qd >= 1 && CookieOk(cookie, qd)
    ensures Climb(DEFAULT - cookie, qd) <= qd + Parts(qd, Amount(qd, true))
  {
    if DEFAULT - cookie <= qd { PartsGrow(DEFAULT - cookie, qd, Amount(qd, true)); }
  }

  // ----- down -----

  /** scale_amount is a sixteenth of the depth for moves up and a quarter for moves down, and at least 1. */
  lemma AmountIs(qd: nat, up: bool)
    ensures var parts, a := if up then 16 else 4, Amount(qd, up);
            a >= 1 && (qd >= parts ==> parts * a <= qd < parts * (a + 1)) && (qd < parts ==> a == 1)
  {
  }

  /** A move down lowers the cookie exactly until it is twice the depth below the default. */
  lemma DownLowers(cookie: int, qd: nat)
    requires qd >= 1 && CookieOk(cookie, qd)
    ensures Moved(cookie, qd, false) < cookie <==> DEFAULT - cookie < 2 * qd
    ensures DEFAULT - cookie == 2 * qd ==> Moved(cookie, qd, false) == cookie
  {
  }

  function MovedDown(cookie: int, qd: nat, times: nat): int
    decreases times
  {
    if times == 0 then cookie else MovedDown(Moved(cookie, qd, false), qd, times - 1)
  }

  /** How many moves down take the cookie from d below the default to more than qd below it. */
  function Drop(d: nat, qd: nat): nat
    requires qd >= 1
  {
    if d > qd then 0 else Parts(qd + 1 - d, Amount(qd, false))
  }

  /** How far below the default that is. */
  function Landing(d: nat, qd: nat): nat
    requires qd >= 1
  {
    d + Drop(d, qd) * Amount(qd, false)
  }

  lemma OneDrop(d: nat, qd: nat)
    requires qd >= 1 && d <= qd
    ensures var n := Amount(qd, false);
            d + n <= 2 * qd && Drop(d + n, qd) == Drop(d, qd) - 1 && Landing(d + n, qd) == Landing(d, qd)
  {
    var n := Amount(qd, false);
    assert Drop(d, qd) * n == n + (Drop(d, qd) - 1) * n;
  }

  /** So many moves down put the cookie more than qd below the default, no fewer; then it sinks by one at a time. */
  lemma {:induction false} DropExact(cookie: int, qd: nat, times: nat)
    requires qd >= 1 && CookieOk(cookie, qd)
    ensures var d := DEFAULT - cookie;
            && qd < Landing(d, qd) <= 2 * qd
            && (DEFAULT - MovedDown(cookie, qd, times) > qd <==> times >= Drop(d, qd))
            && (times >= Drop(d, qd) ==>
                  DEFAULT - MovedDown(cookie, qd, times) == Least(Landing(d, qd) + times - Drop(d, qd), 2 * qd))
    decreases times + Drop(DEFAULT - cookie, qd)
  {
    var d := DEFAULT - cookie;
    if d <= qd {
      OneDrop(d, qd);
      DropExact(Moved(cookie, qd, false), qd, if times > 0 then times - 1 else 0);
    } else if times > 0 {
      DropExact(Moved(cookie, qd, false), qd, times - 1);
    }
  }

  function Least(a: int, b: int): int {
    if a < b then a else b
  }

  /** The floor is reached after exactly so many moves down more. */
  lemma FloorExact(cookie: int, qd: nat, times: nat)
    requires qd >= 1 && CookieOk(cookie, qd)
    ensures var d := DEFAULT - cookie;
            DEFAULT - MovedDown(cookie, qd, times) == 2 * qd <==> times >= Drop(d, qd) + 2 * qd - Landing(d, qd)
  {
    DropExact(cookie, qd, times);
  }

  lemma MulLess(a: int, b: int, n: nat)
    requires a * n < b * n
    ensures a < b
  {
    if a >= b { MulMono(b, a, n); }
  }

  lemma MulMono(a: int, b: int, n: nat)
    requires a <= b
    ensures a * n <= b * n
  {
  }

  /** Throttling is quick and recovery is slow: five moves down undo what takes sixteen or more moves up. */
  lemma DownIsFaster(qd: nat)
    requires qd >= 16
    ensures Drop(0, qd) <= 5 && Climb(qd, qd) >= 16
  {
    AmountIs(qd, false);
    AmountIs(qd, true);
    var n, m := Amount(qd, false), Amount(qd, true);
    PartsIsCeiling(qd + 1, n);
    MulLess(Drop(0, qd) - 1, 5, n);
    PartsIsCeiling(qd, m);
    MulLess(15, Climb(qd, qd), m);
  }

  // ----- the groups -----

  datatype Group = Group(cookie: int, maxDepth: nat, minLat: nat)

  datatype State = State(qd: nat, cookie: int, groups: seq<Group>)

  /** What decides inside check_scale_change, besides the cookies. */
  datatype Check = Check(raced: bool, scaleLat: nat, allSamples: nat, samples: nat, delayed: bool)

  /** scale_change */
  function Scaled(depth: nat, qd: nat, up: bool, delayed: bool): nat {
    var capped := if depth > qd then qd else depth;
    if up then
      if capped == 1 && delayed then depth
      else if capped < qd then (if capped + Amount(qd, true) < qd then capped + Amount(qd, true) else qd)
      else depth
    else Max(capped / 2, 1)
  }

  /** A group that meets its own target, or did little of the I/O, sits out a move down. */
  predicate SitsOut(g: Group, c: Check) {
    g.minLat > 0 && (c.scaleLat == 0 || g.minLat <= c.scaleLat || c.samples <= Max(1, c.allSamples * 5 / 100))
  }

  /** check_scale_change */
  function Checked(g: Group, cookie: int, qd: nat, c: Check): Group {
    if cookie == g.cookie || c.raced then g
    else
      var down := cookie < g.cookie;
      var g' := g.(cookie := cookie);
      if down && SitsOut(g, c) then g'
      else if g.maxDepth == 1 && down then g'
      else if cookie == DEFAULT then g'.(maxDepth := UINT_MAX)
      else g'.(maxDepth := Scaled(g.maxDepth, qd, !down, c.delayed))
  }

  /** As long as the default is at least twice the depth, the cookie cannot pass below zero. */
  ghost predicate QdOk(qd: nat) {
    1 <= qd && 2 * qd <= DEFAULT
  }

  ghost predicate DepthOk(depth: nat, qd: nat) {
    1 <= depth <= qd || depth == UINT_MAX
  }

  /** A group's depth is in range, and it is not throttled once it has seen the default cookie. */
  ghost predicate GroupOk(g: Group, qd: nat) {
    CookieOk(g.cookie, qd) && DepthOk(g.maxDepth, qd) && (g.cookie == DEFAULT ==> g.maxDepth == UINT_MAX)
  }

  ghost predicate Inv(s: State) {
    && QdOk(s.qd) && CookieOk(s.cookie, s.qd)
    && forall i :: 0 <= i < |s.groups| ==> GroupOk(s.groups[i], s.qd)
  }

  lemma ScaledOk(depth: nat, qd: nat, up: bool, delayed: bool)
    requires QdOk(qd) && DepthOk(depth, qd)
    ensures DepthOk(Scaled(depth, qd, up, delayed), qd)
    ensures !up ==> Scaled(depth, qd, up, delayed) <= Max(qd / 2, 1)
  {
  }

  lemma CheckedOk(g: Group, cookie: int, qd: nat, c: Check)
    requires QdOk(qd) && GroupOk(g, qd) && CookieOk(cookie, qd)
    ensures GroupOk(Checked(g, cookie, qd, c), qd)
  {
    ScaledOk(g.maxDepth, qd, cookie > g.cookie, c.delayed);
  }

  /** The group misses its latency target and did more than a twentieth of the I/O, and more than one. */
  ghost predicate ToBlame(g: Group, c: Check) {
    g.minLat == 0 || (0 < c.scaleLat < g.minLat && c.samples > 1 && 100 * c.samples > 5 * c.allSamples)
  }

  /**
  A group that sees the cookie go down halves its depth, down to 1, exactly if it is to blame; otherwise its
  depth stays.
  */
  lemma FollowsDown(g: Group, cookie: int, qd: nat, c: Check)
    requires QdOk(qd) && GroupOk(g, qd) && cookie < g.cookie && !c.raced
    ensures var h := Checked(g, cookie, qd, c);
            && h.cookie == cookie && h.minLat == g.minLat
            && (h.maxDepth < g.maxDepth <==> ToBlame(g, c) && g.maxDepth > 1)
            && (h.maxDepth >= g.maxDepth ==> h.maxDepth == g.maxDepth)
            && (h.maxDepth < g.maxDepth ==>
                  h.maxDepth == 1 || 2 * h.maxDepth <= Least(g.maxDepth, qd) < 2 * (h.maxDepth + 1))
            && (h.maxDepth == 1 && g.maxDepth > 1 ==> Least(g.maxDepth, qd) < 4)
  {
  }

  /**
  A group that sees the cookie go up gains a sixteenth of the queue's depth, at least 1 and at most up to it,
  unless it is held at 1 by a delay; at the default cookie it is not throttled at all.
  */
  lemma FollowsUp(g: Group, cookie: int, qd: nat, c: Check)
    requires QdOk(qd) && GroupOk(g, qd) && g.cookie < cookie <= DEFAULT && !c.raced
    ensures var h := Checked(g, cookie, qd, c);
            && h.cookie == cookie && h.minLat == g.minLat
            && (cookie == DEFAULT ==> h.maxDepth == UINT_MAX)
            && (cookie < DEFAULT ==>
                  && (h.maxDepth > g.maxDepth <==> g.maxDepth < qd && !(g.maxDepth == 1 && c.delayed))
                  && (h.maxDepth <= g.maxDepth ==> h.maxDepth == g.maxDepth)
                  && (h.maxDepth > g.maxDepth ==> h.maxDepth <= qd)
                  && (g.maxDepth < h.maxDepth < qd ==>
                        var n := h.maxDepth - g.maxDepth; (n == 1 && qd < 32) || 16 * n <= qd < 16 * (n + 1)))
  {
    AmountIs(qd, true);
  }

  // ----- runs -----

  datatype Action = Move(up: bool) | Clear | Join(minLat: nat) | Follow(i: nat, c: Check)

  function Apply(s: State, a: Action): State {
    match a
    case Move(up) => s.(cookie := Moved(s.cookie, s.qd, up))
    case Clear => s.(cookie := DEFAULT)
    case Join(minLat) => s.(groups := s.groups + [Group(s.cookie, UINT_MAX, minLat)])
    case Follow(i, c) =>
      if i >= |s.groups| then s else s.(groups := s.groups[i := Checked(s.groups[i], s.cookie, s.qd, c)])
  }

  function After(s: State, run: seq<Action>): State
    decreases |run|
  {
    if run == [] then s else After(Apply(s, run[0]), run[1..])
  }

  /** Every run keeps the cookie within 2 * qd below the default and every group's depth in range. */
  lemma {:induction false} EveryRun(s: State, run: seq<Action>)
    requires Inv(s)
    ensures Inv(After(s, run)) && After(s, run).qd == s.qd
    decreases |run|
  {
    if run != [] {
      match run[0] {
        case Move(up) => MovedOk(s.cookie, s.qd, up);
        case Clear =>
        case Join(_) =>
        case Follow(i, c) => if i < |s.groups| { CheckedOk(s.groups[i], s.cookie, s.qd, c); }
      }
      EveryRun(Apply(s, run[0]), run[1..]);
    }
  }

  /** From every reachable state that many moves up in a row bring the cookie back to the default. */
  lemma RecoversWithin(s: State, run: seq<Action>)
    requires Inv(s)
    ensures MovedUp(After(s, run).cookie, s.qd, s.qd + Parts(s.qd, Amount(s.qd, true))) == DEFAULT
  {
    EveryRun(s, run);
    var cookie := After(s, run).cookie;
    ClimbBound(cookie, s.qd);
    ClimbExact(cookie, s.qd, s.qd + Parts(s.qd, Amount(s.qd, true)));
  }

  /** Once the cookie is back at the default, a group that checks is unthrottled. */
  lemma BackToDefault(s: State, i: nat, c: Check)
    requires Inv(s) && i < |s.groups| && s.cookie == DEFAULT && !c.raced
    ensures Checked(s.groups[i], s.cookie, s.qd, c).maxDepth == UINT_MAX
  {
    assert GroupOk(s.groups[i], s.qd);
  }

  // ----- the object -----

  class Latency {
    const qd: nat
    var cookie: int
    var groups: seq<Group>

    ghost function Model(): State
      reads this
    {
      State(qd, cookie, groups)
    }

    constructor (qd: nat)
      requires QdOk(qd)
      ensures this.qd == qd && Inv(Model()) && cookie == DEFAULT && groups == []
    {
      this.qd, cookie, groups := qd, DEFAULT, [];
    }

    /** scale_cookie_change */
    method MoveCookie(up: bool)
      requires Inv(Model())
      modifies this`cookie
      ensures Model() == Apply(old(Model()), Move(up)) && Inv(Model())
      ensures up ==> (cookie > old(cookie) <==> old(cookie) < DEFAULT)
      ensures !up ==> (cookie < old(cookie) <==> DEFAULT - old(cookie) < 2 * qd)
    {
      MovedOk(cookie, qd, up);
      var scale := Amount(qd, up);
      var diff := 0;
      if cookie < DEFAULT {
        diff := DEFAULT - cookie;
      }
      if up {
        if scale + cookie > DEFAULT {
          cookie := DEFAULT;
        } else if diff > qd {
          cookie := cookie + 1;
        } else {
          cookie := cookie + scale;
        }
      } else if diff > qd {
        if diff < 2 * qd {
          cookie := cookie - 1;
        }
      } else {
        cookie := cookie - scale;
      }
    }

    /** scale_change */
    method ScaleDepth(i: nat, up: bool, delayed: bool)
      requires i < |groups|
      modifies this`groups
      ensures groups == old(groups)[i := old(groups)[i].(maxDepth := Scaled(old(groups)[i].maxDepth, qd, up, delayed))]
      ensures QdOk(qd) && DepthOk(old(groups)[i].maxDepth, qd) ==>
                && DepthOk(groups[i].maxDepth, qd)
                && (up ==> groups[i].maxDepth >= old(groups)[i].maxDepth)
                && (!up ==> groups[i].maxDepth < old(groups)[i].maxDepth || old(groups)[i].maxDepth == 1)
    {
      var depth := groups[i].maxDepth;
      if depth > qd {
        depth := qd;
      }
      if up {
        if depth == 1 && delayed {
          return;
        }
        if depth < qd {
          depth := depth + Amount(qd, true);
          if depth > qd {
            depth := qd;
          }
          groups := groups[i := groups[i].(maxDepth := depth)];
        }
      } else {
        depth := depth / 2;
        groups := groups[i := groups[i].(maxDepth := Max(depth, 1))];
      }
    }

    /** check_scale_change */
    method CheckScale(i: nat, c: Check)
      requires Inv(Model()) && i < |groups|
      modifies this`groups
      ensures Model() == Apply(old(Model()), Follow(i, c)) && Inv(Model())
      ensures c.raced || cookie == old(groups[i].cookie) ==> groups == old(groups)
    {
      var g := groups[i];
      CheckedOk(g, cookie, qd, c);
      if cookie == g.cookie || c.raced {
        return;
      }
      var down := cookie < g.cookie;
      groups := groups[i := g.(cookie := cookie)];
      if down && g.minLat > 0 {
        if c.scaleLat == 0 || g.minLat <= c.scaleLat {
          return;
        }
        if c.samples <= Max(1, c.allSamples * 5 / 100) {
          return;
        }
      }
      if g.maxDepth == 1 && down {
        return;
      }
      if cookie == DEFAULT {
        groups := groups[i := groups[i].(maxDepth := UINT_MAX)];
        return;
      }
      ScaleDepth(i, !down, c.delayed);
    }
  }
}
