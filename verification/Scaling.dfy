/** What a scaler step may do to a pool's count, whichever the pool. */
module Scaling {
  import opened SlotBanks

  /** One event of a run: a scaler tick, or whatever else happens to the pool. */
  datatype Event<E> = Tick(now: real, queued: nat) | Other(what: E)

  /** What a step did to the count; a worker sent home takes its slots out of service. */
  datatype Change = Same | Grew(index: nat) | Shrank(index: nat, slots: set<Slot>)

  /** How the set of counted workers moves with a change. */
  ghost predicate Moves(before: set<nat>, c: Change, after: set<nat>) {
    match c
    case Same => after == before
    case Grew(w) => w !in before && after == before + {w}
    case Shrank(w, _) => w in before && after == before - {w}
  }

  ghost predicate Within(floor: nat, count: nat, ceiling: nat) {
    floor <= count <= ceiling
  }

  /** Clock readings never go back. */
  ghost predicate InOrder<E>(events: seq<Event<E>>, start: real) {
    && (forall i :: 0 <= i < |events| && events[i].Tick? ==> start <= events[i].now)
    && (forall i, j :: 0 <= i < j < |events| && events[i].Tick? && events[j].Tick? ==> events[i].now <= events[j].now)
  }

  lemma InOrderHead<E>(events: seq<Event<E>>, k: nat, t: real)
    requires k < |events| && InOrder(events[k..], t)
    ensures events[k].Tick? ==> t <= events[k].now
  {
    assert events[k..][0] == events[k];
  }

  lemma InOrderTail<E>(events: seq<Event<E>>, k: nat, t: real, u: real)
    requires k < |events| && InOrder(events[k..], t)
    requires u == t || (events[k].Tick? && u <= events[k].now)
    ensures InOrder(events[k + 1..], u)
  {
    var later := events[k..];
    assert later[0] == events[k] && later[1..] == events[k + 1..];
  }

  /** Counts taken along a run, ending in `now`: within bounds, and one apart at most. */
  ghost predicate Followed(counts: seq<nat>, floor: nat, now: nat, ceiling: nat) {
    && counts != [] && counts[|counts| - 1] == now
    && (forall i :: 0 <= i < |counts| ==> Within(floor, counts[i], ceiling))
    && (forall i :: 0 < i < |counts| ==> OneApart(counts[i - 1], counts[i]))
  }

  predicate OneApart(m: nat, n: nat) {
    m <= n + 1 && n <= m + 1
  }

  lemma MovesByOne(before: set<nat>, c: Change, after: set<nat>)
    requires Moves(before, c, after)
    ensures OneApart(|before|, |after|)
  {
  }

  lemma FollowOn(counts: seq<nat>, floor: nat, before: nat, after: nat, ceiling: nat)
    requires Followed(counts, floor, before, ceiling) && OneApart(before, after) && Within(floor, after, ceiling)
    ensures Followed(counts + [after], floor, after, ceiling)
  {
  }
}
