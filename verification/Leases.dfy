/** SOCKS credential leases as the steps of any number of threads: issuing one, discarding one,
    discarding all. What holds `_credential_lock` is one step, erasing takes a step for each secret
    and one for the flag. */
module Leases {

  type Bytes = seq<int>

  function Zeros(n: nat): (r: Bytes)
    ensures |r| == n
  {
    seq(n, _ => 0)
  }

  datatype Secret = Secret(username: Bytes, password: Bytes)

  function Wiped(secret: Secret): Secret {
    Secret(Zeros(|secret.username|), Zeros(|secret.password|))
  }

  /** All bytes are zero, and there are as many as before. */
  lemma WipedExactly(secret: Secret)
    ensures |Wiped(secret).username| == |secret.username| && |Wiped(secret).password| == |secret.password|
    ensures forall b | b in Wiped(secret).username || b in Wiped(secret).password :: b == 0
  {
  }

  datatype Lease = Lease(secret: Secret, discarded: bool)

  /** What a thread is in the middle of: making a lease nobody else knows yet, or erasing leases it
      has removed, the first one being at the given step. */
  datatype Thread = Idle | Issuing(id: nat) | Erasing(queue: seq<nat>, step: nat)

  /** Where a lease is: with the thread that makes it, active, with the thread that erases it, or
      discarded. */
  datatype Place = Making(t: nat) | Active | Held(t: nat) | Gone

  /** `issued` keeps the secrets as they were made, `removals` the ids taken out of `active`.
      `places` is bookkeeping that no step consults. */
  datatype World = World(
    leases: seq<Lease>, active: set<nat>, threads: map<nat, Thread>,
    issued: seq<Secret>, removals: seq<nat>, places: seq<Place>)

  datatype Action =
    | Create(t: nat, secret: Secret)
    | Add(t: nat)
    | Remove(t: nat, id: nat)
    | TakeAll(t: nat, order: seq<nat>)
    | Erase(t: nat)

  function ThreadOf(w: World, t: nat): Thread {
    if t in w.threads then w.threads[t] else Idle
  }

  function With(w: World, t: nat, thread: Thread): World {
    w.(threads := w.threads[t := thread])
  }

  predicate Distinct(ids: seq<nat>) {
    forall i, j | 0 <= i < j < |ids| :: ids[i] != ids[j]
  }

  /** One enumeration of the set, as `tuple(...)` gives. */
  predicate Enumerates(order: seq<nat>, ids: set<nat>) {
    Distinct(order) && (forall id | id in ids :: id in order) && (forall i | 0 <= i < |order| :: order[i] in ids)
  }

  /** The next assignment of `SocksCredential.discard`. */
  function Erased(lease: Lease, step: nat): Lease {
    var secret := lease.secret;
    if step == 0 then lease.(secret := secret.(username := Zeros(|secret.username|)))
    else if step == 1 then lease.(secret := secret.(password := Zeros(|secret.password|)))
    else lease.(discarded := true)
  }

  function EraseNext(w: World, t: nat, queue: seq<nat>, step: nat): World {
    if queue == [] then With(w, t, Idle)
    else if queue[0] >= |w.leases| then w
    else
      var id := queue[0];
      var erased := w.(leases := w.leases[id := Erased(w.leases[id], step)]);
      if step < 2 then With(erased, t, Erasing(queue, step + 1))
      else With(Placing(erased, [id], Gone), t, Erasing(queue[1..], 0))
  }

  function Placing(w: World, ids: seq<nat>, place: Place): World {
    w.(places := seq(|w.places|, id requires 0 <= id < |w.places| => if id in ids then place else w.places[id]))
  }

  function Step(w: World, a: Action): World {
    var thread := ThreadOf(w, a.t);
    match a
    case Create(t, secret) =>
      if !thread.Idle? then w
      else
        With(w, t, Issuing(|w.leases|))
        .(leases := w.leases + [Lease(secret, false)], issued := w.issued + [secret], places := w.places + [Making(t)])
    case Add(t) =>
      if !thread.Issuing? then w
      else With(Placing(w, [thread.id], Active), t, Idle).(active := w.active + {thread.id})
    case Remove(t, id) =>
      if !thread.Idle? || id !in w.active then w
      else
        With(Placing(w, [id], Held(t)), t, Erasing([id], 0))
        .(active := w.active - {id}, removals := w.removals + [id])
    case TakeAll(t, order) =>
      if !thread.Idle? || !Enumerates(order, w.active) then w
      else With(Placing(w, order, Held(t)), t, Erasing(order, 0)).(active := {}, removals := w.removals + order)
    case Erase(t) =>
      if !thread.Erasing? then w else EraseNext(w, t, thread.queue, thread.step)
  }

  function Run(w: World, actions: seq<Action>): World
    decreases |actions|
  {
    if actions == [] then w else Run(Step(w, actions[0]), actions[1..])
  }

  const START := World([], {}, map[], [], [], [])

  /** `SocksCredential.authentication`: nothing once the flag is set. */
  predicate Authenticates(w: World, id: nat) {
    id < |w.leases| && !w.leases[id].discarded
  }

  // ---- invariant ------------------------------------------------------------------------

  predicate Holds(thread: Thread, id: nat) {
    (thread.Issuing? && thread.id == id) || (thread.Erasing? && id in thread.queue)
  }

  /** How far the erasing of a lease has got. */
  predicate AtStep(lease: Lease, issued: Secret, step: nat) {
    && !lease.discarded
    && lease.secret.username == (if step >= 1 then Zeros(|issued.username|) else issued.username)
    && lease.secret.password == (if step >= 2 then Zeros(|issued.password|) else issued.password)
  }

  /** A lease's place is where it is, and tells how much of it is erased and whether it was removed. */
  predicate LeaseInv(w: World, id: nat)
    requires id < |w.leases| == |w.issued| == |w.places|
  {
    var lease, issued, place := w.leases[id], w.issued[id], w.places[id];
    && (id in w.active <==> place.Active?)
    && (id in w.removals <==> place.Held? || place.Gone?)
    && (place.Making? || place.Active? ==> AtStep(lease, issued, 0))
    && (place.Gone? ==> lease == Lease(Wiped(issued), true))
    && (place.Making? ==> ThreadOf(w, place.t) == Issuing(id))
    && (place.Held? ==>
          var thread := ThreadOf(w, place.t);
          && thread.Erasing? && id in thread.queue
          && AtStep(lease, issued, if thread.queue[0] == id then thread.step else 0))
  }

  predicate ThreadInv(w: World, t: nat) {
    var thread := ThreadOf(w, t);
    && (thread.Issuing? ==> thread.id < |w.places| && w.places[thread.id] == Making(t))
    && (thread.Erasing? ==>
          && Distinct(thread.queue) && thread.step <= 2
          && forall i | 0 <= i < |thread.queue| :: thread.queue[i] < |w.places| && w.places[thread.queue[i]] == Held(t))
  }

  ghost predicate Inv(w: World) {
    && |w.leases| == |w.issued| == |w.places|
    && (forall id | 0 <= id < |w.leases| :: LeaseInv(w, id))
    && (forall t: nat :: ThreadInv(w, t))
    && (forall id | id in w.active :: id < |w.leases|)
    && (forall i | 0 <= i < |w.removals| :: w.removals[i] < |w.leases|)
    && Distinct(w.removals)
  }

  lemma CreateKeeps(w: World, t: nat, secret: Secret)
    requires Inv(w)
    ensures Inv(Step(w, Create(t, secret)))
  {
    var v := Step(w, Create(t, secret));
    assert ThreadInv(w, t);
    forall id | 0 <= id < |v.leases|
      ensures LeaseInv(v, id)
    {
      assert id < |w.leases| ==> LeaseInv(w, id);
    }
    forall u: nat
      ensures ThreadInv(v, u)
    {
      assert ThreadInv(w, u);
    }
  }

  lemma AddKeeps(w: World, t: nat)
    requires Inv(w)
    ensures Inv(Step(w, Add(t)))
  {
    var v := Step(w, Add(t));
    assert ThreadInv(w, t);
    forall id | 0 <= id < |v.leases|
      ensures LeaseInv(v, id)
    {
      assert LeaseInv(w, id);
    }
    forall u: nat
      ensures ThreadInv(v, u)
    {
      assert ThreadInv(w, u);
    }
  }

  lemma DistinctAppend(a: seq<nat>, b: seq<nat>)
    requires Distinct(a) && Distinct(b) && forall i | 0 <= i < |b| :: b[i] !in a
    ensures Distinct(a + b)
  {
  }

  lemma RemoveKeeps(w: World, t: nat, id: nat)
    requires Inv(w)
    ensures Inv(Step(w, Remove(t, id)))
  {
    if ThreadOf(w, t).Idle? && id in w.active {
      TakenKeeps(w, t, [id], w.active - {id});
    }
  }

  lemma TakeAllKeeps(w: World, t: nat, order: seq<nat>)
    requires Inv(w)
    ensures Inv(Step(w, TakeAll(t, order)))
  {
    if ThreadOf(w, t).Idle? && Enumerates(order, w.active) {
      TakenKeeps(w, t, order, {});
    }
  }

  /** Taking distinct active leases out, to erase them. */
  lemma TakenKeeps(w: World, t: nat, ids: seq<nat>, rest: set<nat>)
    requires Inv(w) && ThreadOf(w, t).Idle? && Distinct(ids)
    requires forall i | 0 <= i < |ids| :: ids[i] in w.active
    requires forall id :: id in rest <==> id in w.active && id !in ids
    ensures Inv(With(Placing(w, ids, Held(t)), t, Erasing(ids, 0)).(active := rest, removals := w.removals + ids))
  {
    var v := With(Placing(w, ids, Held(t)), t, Erasing(ids, 0)).(active := rest, removals := w.removals + ids);
    forall i | 0 <= i < |ids|
      ensures ids[i] !in w.removals && ids[i] < |w.leases| && w.places[ids[i]] == Active
    {
      assert LeaseInv(w, ids[i]);
    }
    DistinctAppend(w.removals, ids);
    forall id | 0 <= id < |v.leases|
      ensures LeaseInv(v, id)
    {
      assert LeaseInv(w, id);
    }
    forall u: nat
      ensures ThreadInv(v, u)
    {
      assert ThreadInv(w, u);
    }
  }

  lemma EraseKeeps(w: World, t: nat)
    requires Inv(w)
    ensures Inv(Step(w, Erase(t)))
  {
    var v := Step(w, Erase(t));
    assert ThreadInv(w, t);
    forall id | 0 <= id < |v.leases|
      ensures LeaseInv(v, id)
    {
      assert LeaseInv(w, id);
    }
    forall u: nat
      ensures ThreadInv(v, u)
    {
      assert ThreadInv(w, u);
    }
  }

  lemma StepKeeps(w: World, a: Action)
    requires Inv(w)
    ensures Inv(Step(w, a))
  {
    match a
    case Create(t, secret) => CreateKeeps(w, t, secret);
    case Add(t) => AddKeeps(w, t);
    case Remove(t, id) => RemoveKeeps(w, t, id);
    case TakeAll(t, order) => TakeAllKeeps(w, t, order);
    case Erase(t) => EraseKeeps(w, t);
  }

  lemma {:induction false} RunKeeps(w: World, actions: seq<Action>)
    requires Inv(w)
    ensures Inv(Run(w, actions))
    decreases |actions|
  {
    if actions != [] {
      StepKeeps(w, actions[0]);
      RunKeeps(Step(w, actions[0]), actions[1..]);
    }
  }

  // ---- the leases' promises ---------------------------------------------------------------

  /** The exactly one thread that holds a lease. */
  ghost predicate HeldByOne(w: World, id: nat) {
    exists t: nat :: Holds(ThreadOf(w, t), id) && forall u: nat | Holds(ThreadOf(w, u), id) :: u == t
  }

  ghost predicate HeldByNone(w: World, id: nat) {
    forall t: nat :: !Holds(ThreadOf(w, t), id)
  }

  lemma HolderPlaced(w: World, t: nat, id: nat)
    requires Inv(w) && Holds(ThreadOf(w, t), id)
    ensures id < |w.places| && (w.places[id] == Making(t) || w.places[id] == Held(t))
  {
    assert ThreadInv(w, t);
  }

  lemma NobodyHolds(w: World, id: nat)
    requires Inv(w) && id < |w.leases| && (w.places[id].Active? || w.places[id].Gone?)
    ensures HeldByNone(w, id)
  {
    forall t: nat
      ensures !Holds(ThreadOf(w, t), id)
    {
      if Holds(ThreadOf(w, t), id) {
        HolderPlaced(w, t, id);
      }
    }
  }

  lemma OneHolds(w: World, id: nat)
    requires Inv(w) && id < |w.leases| && (w.places[id].Making? || w.places[id].Held?)
    ensures HeldByOne(w, id)
  {
    var t := w.places[id].t;
    assert LeaseInv(w, id);
    assert Holds(ThreadOf(w, t), id);
    forall u: nat | Holds(ThreadOf(w, u), id)
      ensures u == t
    {
      HolderPlaced(w, u, id);
    }
  }

  /** Every lease ever made is in exactly one place: active, with exactly one thread that makes or
      erases it, or discarded. Active ones have their secrets untouched, discarded ones have every
      byte of them zero at unchanged length. */
  lemma OnePlace(actions: seq<Action>, id: nat)
    requires id < |Run(START, actions).issued|
    ensures var w := Run(START, actions);
            && id < |w.leases|
            && (id in w.active ==>
                  HeldByNone(w, id) && w.leases[id] == Lease(w.issued[id], false))
            && (w.leases[id].discarded ==>
                  HeldByNone(w, id) && id !in w.active && w.leases[id].secret == Wiped(w.issued[id]))
            && (id !in w.active && !w.leases[id].discarded ==> HeldByOne(w, id))
  {
    RunKeeps(START, actions);
    var w := Run(START, actions);
    assert LeaseInv(w, id);
    if w.places[id].Active? || w.places[id].Gone? {
      NobodyHolds(w, id);
    } else {
      OneHolds(w, id);
    }
  }

  /** No lease is removed twice, and a removed one is never active again. */
  lemma RemovedOnce(actions: seq<Action>)
    ensures var w := Run(START, actions);
            Distinct(w.removals) && forall i | 0 <= i < |w.removals| :: w.removals[i] !in w.active
  {
    RunKeeps(START, actions);
    var w := Run(START, actions);
    forall i | 0 <= i < |w.removals|
      ensures w.removals[i] !in w.active
    {
      assert LeaseInv(w, w.removals[i]);
    }
  }

  lemma StepKeepsDiscarded(w: World, a: Action, id: nat)
    requires Inv(w) && id < |w.leases| && w.leases[id].discarded
    ensures id < |Step(w, a).leases| && Step(w, a).leases[id] == w.leases[id]
  {
    assert LeaseInv(w, id) && ThreadInv(w, a.t);
  }

  lemma {:induction false} RunKeepsDiscarded(w: World, actions: seq<Action>, id: nat)
    requires Inv(w) && id < |w.leases| && w.leases[id].discarded
    ensures id < |Run(w, actions).leases| && Run(w, actions).leases[id] == w.leases[id]
    decreases |actions|
  {
    if actions != [] {
      StepKeeps(w, actions[0]);
      StepKeepsDiscarded(w, actions[0], id);
      RunKeepsDiscarded(Step(w, actions[0]), actions[1..], id);
    }
  }

  /** A discarded lease never authenticates again and stays wiped, whatever happens later. */
  lemma DiscardedForGood(before: seq<Action>, after: seq<Action>, id: nat)
    requires id < |Run(START, before).leases| && !Authenticates(Run(START, before), id)
    ensures var w, v := Run(START, before), Run(Run(START, before), after);
            && !Authenticates(v, id)
            && id < |w.issued| && id < |v.leases| && v.leases[id].secret == Wiped(w.issued[id])
  {
    RunKeeps(START, before);
    var w := Run(START, before);
    assert LeaseInv(w, id);
    RunKeepsDiscarded(w, after, id);
  }

  /** Once discard-all and every other thread has finished, no secret byte is left anywhere. */
  lemma ShutdownErasesAll(actions: seq<Action>)
    requires Run(START, actions).active == {}
    requires forall t: nat :: ThreadOf(Run(START, actions), t).Idle?
    ensures var w := Run(START, actions);
            && |w.leases| == |w.issued|
            && forall id | 0 <= id < |w.leases| :: w.leases[id] == Lease(Wiped(w.issued[id]), true)
  {
    RunKeeps(START, actions);
    var w := Run(START, actions);
    forall id | 0 <= id < |w.leases|
      ensures w.leases[id] == Lease(Wiped(w.issued[id]), true)
    {
      assert LeaseInv(w, id);
    }
  }

  /** What `issue_socks_credential` returns is a new active lease with the secrets it was given. */
  lemma IssuedIsActive(actions: seq<Action>, t: nat, secret: Secret)
    requires ThreadOf(Run(START, actions), t).Idle?
    ensures var w := Run(START, actions);
            var v := Step(Step(w, Create(t, secret)), Add(t));
            && |v.leases| == |w.leases| + 1 && v.active == w.active + {|w.leases|}
            && v.leases[|w.leases|] == Lease(secret, false)
            && v.leases[..|w.leases|] == w.leases && |w.leases| !in w.active
  {
    RunKeeps(START, actions);
  }

  // ---- progress ------------------------------------------------------------------------------------

  /** An idle thread can discard any active lease: it is taken out at once, and three steps later it is
      wiped and marked. */
  lemma DiscardCompletes(actions: seq<Action>, t: nat, id: nat)
    requires ThreadOf(Run(START, actions), t).Idle? && id in Run(START, actions).active
    ensures var w := Run(START, actions);
            var taken := Step(w, Remove(t, id));
            var end := Step(Step(Step(Step(taken, Erase(t)), Erase(t)), Erase(t)), Erase(t));
            && taken.active == w.active - {id} && end.active == w.active - {id}
            && id < |w.issued| && id < |end.leases| && end.leases[id] == Lease(Wiped(w.issued[id]), true)
            && ThreadOf(end, t).Idle?
            && (forall k | 0 <= k < |w.leases| && k != id :: end.leases[k] == w.leases[k])
  {
    RunKeeps(START, actions);
    var w := Run(START, actions);
    assert LeaseInv(w, id);
  }

  /** Discarding all takes every active lease at once, in some order. */
  lemma TakeAllEmpties(w: World, t: nat, order: seq<nat>)
    requires ThreadOf(w, t).Idle? && Enumerates(order, w.active)
    ensures var v := Step(w, TakeAll(t, order));
            v.active == {} && ThreadOf(v, t) == Erasing(order, 0) && v.leases == w.leases
  {
  }

  /** A thread that is erasing is never stuck: each step wipes one more secret, marks one more lease, or ends. */
  lemma ErasingProceeds(actions: seq<Action>, t: nat)
    requires ThreadOf(Run(START, actions), t).Erasing?
    ensures var w := Run(START, actions);
            var before, after := ThreadOf(w, t), ThreadOf(Step(w, Erase(t)), t);
            if before.queue == [] then after.Idle?
            else
              after == if before.step < 2 then Erasing(before.queue, before.step + 1) else Erasing(before.queue[1..], 0)
  {
    RunKeeps(START, actions);
    assert ThreadInv(Run(START, actions), t);
  }
}
