/** Settling a promise, and the reactions that this sets off. */
module Reactions {
  import opened Promises

  /** The heap, how many reactions were made, which of them ran, and how many callbacks may still run. */
  datatype World = World(heap: seq<Record>, made: nat, ran: multiset<nat>, budget: nat)

  /** The numbers from a up to b, each once. */
  function Range(a: nat, b: nat): multiset<nat> {
    if b <= a then multiset{} else Range(a, b - 1) + multiset{b - 1}
  }

  /** Every reaction made so far either waits or ran. */
  function Total(w: World): multiset<nat> {
    w.ran + Waiting(w.heap)
  }

  /** What every step keeps: settled promises stay as they are, and no reaction is lost or doubled
      (`hand` are reactions taken from a promise but not run yet). After a fault some may be lost. */
  ghost predicate Evolves(a: World, b: World, hand: multiset<nat>, whole: bool) {
    && ValidHeap(b.heap) && Later(a.heap, b.heap) && a.made <= b.made && b.budget <= a.budget
    && Total(b) <= Total(a) + hand + Range(a.made, b.made)
    && (whole ==> Total(b) == Total(a) + hand + Range(a.made, b.made))
  }

  /** Only callbacks make promises, and every callback takes one off the budget. */
  ghost predicate Shrinks(a: World, b: World) {
    b.budget < a.budget || (b.budget == a.budget && PendingCount(b.heap) <= PendingCount(a.heap))
  }

  lemma {:induction false} RangeOnce(a: nat, b: nat, n: nat)
    ensures Range(a, b)[n] == (if a <= n < b then 1 else 0)
  {
    if a < b {
      RangeOnce(a, b - 1, n);
    }
  }

  lemma RangeJoins(a: nat, b: nat, c: nat)
    requires a <= b <= c
    ensures Range(a, b) + Range(b, c) == Range(a, c)
  {
    hide Range;
    var both := Range(a, b) + Range(b, c);
    forall n: nat ensures both[n] == Range(a, c)[n] {
      RangeOnce(a, b, n);
      RangeOnce(b, c, n);
      RangeOnce(a, c, n);
    }
  }

  lemma EvolvesOn(a: World, b: World, c: World, h: multiset<nat>, k: multiset<nat>, whole: bool)
    requires Evolves(a, b, h, true) && Evolves(b, c, k, whole)
    ensures Evolves(a, c, h + k, whole)
  {
    hide Waiting, ValidHeap, PendingCount;
    RangeJoins(a.made, b.made, c.made);
    assert Total(a) + h + Range(a.made, b.made) + k + Range(b.made, c.made) == Total(a) + (h + k) + Range(a.made, c.made);
  }

  lemma EvolvesFault(a: World, b: World, some: multiset<nat>, all: multiset<nat>, whole: bool)
    requires Evolves(a, b, some, whole) && some <= all
    ensures Evolves(a, b, all, false)
  {
    hide Total, Range, ValidHeap;
  }

  lemma EvolvesNot(a: World)
    requires ValidHeap(a.heap)
    ensures Evolves(a, a, multiset{}, true)
  {
  }

  /** A reaction starts to run. */
  lemma Ran(a: World, b: World, serial: nat)
    requires ValidHeap(a.heap) && b == a.(ran := a.ran + multiset{serial})
    ensures Evolves(a, b, multiset{serial}, true)
  {
  }

  /** A reaction is put on a pending promise. */
  lemma Enqueued(a: World, p: nat, r: Reaction)
    requires ValidHeap(a.heap) && p < |a.heap| && a.heap[p].state.Pending? && KnownReaction(a.heap, r) && r.serial == a.made
    ensures var b := a.(heap := a.heap[p := a.heap[p].(reactions := a.heap[p].reactions + [r])], made := a.made + 1);
            Evolves(a, b, multiset{}, true) && Shrinks(a, b)
  {
    hide Waiting, PendingCount, ValidHeap, ValidRecord;
    var d := a.heap[p].(reactions := a.heap[p].reactions + [r]);
    StillValid(a.heap, p, r);
    PendingUpdate(a.heap, p, d);
    WaitingEnqueue(a.heap, p, r);
    assert Range(a.made, a.made + 1) == multiset{a.made};
  }

  lemma KnownContents(heap: seq<Record>, p: nat)
    requires ValidHeap(heap) && p < |heap|
    ensures KnownValue(heap, heap[p].value) && (heap[p].state.Fulfilled? ==> !heap[p].value.Promised?)
    ensures forall i :: 0 <= i < |heap[p].reactions| ==> KnownReaction(heap, heap[p].reactions[i])
  {
    assert ValidRecord(heap, heap[p]);
  }

  /** A promise is settled and its reactions are taken away. */
  lemma Taken(heap: seq<Record>, p: nat, c: Record)
    requires ValidHeap(heap) && p < |heap| && heap[p].state.Pending? && !c.state.Pending? && c.reactions == []
    requires KnownValue(heap, c.value) && (c.state.Fulfilled? ==> !c.value.Promised?)
    ensures ValidHeap(heap[p := c]) && PendingCount(heap[p := c]) < PendingCount(heap)
    ensures Waiting(heap[p := c]) + Serials(heap[p].reactions) == Waiting(heap)
  {
    hide Waiting, PendingCount;
    ValidUpdated(heap, p, c);
    PendingUpdate(heap, p, c);
    WaitingUpdate(heap, p, c);
  }

  lemma StillValid(heap: seq<Record>, p: nat, r: Reaction)
    requires ValidHeap(heap) && p < |heap| && heap[p].state.Pending? && KnownReaction(heap, r)
    ensures ValidHeap(heap[p := heap[p].(reactions := heap[p].reactions + [r])])
  {
    hide KnownReaction;
    assert ValidRecord(heap, heap[p]);
    ValidUpdated(heap, p, heap[p].(reactions := heap[p].reactions + [r]));
  }

  lemma WaitingEnqueue(heap: seq<Record>, p: nat, r: Reaction)
    requires p < |heap|
    ensures Waiting(heap[p := heap[p].(reactions := heap[p].reactions + [r])]) == Waiting(heap) + multiset{r.serial}
  {
    hide Waiting;
    var c := heap[p];
    var d := c.(reactions := c.reactions + [r]);
    WaitingUpdate(heap, p, d);
    assert d.reactions[..|c.reactions|] == c.reactions;
    AddOne(Waiting(heap), Waiting(heap[p := d]), Serials(c.reactions), r.serial);
  }

  lemma AddOne(w: multiset<nat>, x: multiset<nat>, s: multiset<nat>, n: nat)
    requires x + s == w + (s + multiset{n})
    ensures x == w + multiset{n}
  {
    assert w + (s + multiset{n}) == (w + multiset{n}) + s;
    assert forall k :: x[k] == (w + multiset{n})[k] by {
      forall k ensures x[k] == (w + multiset{n})[k] {
        assert (x + s)[k] == ((w + multiset{n}) + s)[k];
      }
    }
  }

  lemma SerialsNone(rs: seq<Reaction>)
    ensures Serials(rs[..0]) == multiset{}
  {
  }

  lemma SerialsNext(rs: seq<Reaction>, i: nat)
    requires i < |rs|
    ensures Serials(rs[..i + 1]) == Serials(rs[..i]) + multiset{rs[i].serial}
  {
    assert rs[..i + 1][..i] == rs[..i];
  }

  lemma {:induction false} SerialsPrefix(rs: seq<Reaction>, n: nat)
    requires n <= |rs|
    ensures Serials(rs[..n]) <= Serials(rs)
  {
    if n < |rs| {
      SerialsPrefix(rs[..|rs| - 1], n);
      assert rs[..|rs| - 1][..n] == rs[..n];
    } else {
      assert rs[..n] == rs;
    }
  }

  /** A promise settles, and gives up its reactions, which then run. */
  lemma Settles(a: World, b: World, c: World, p: nat, taken: multiset<nat>, whole: bool)
    requires p < |a.heap| == |b.heap| && a.heap[p].state.Pending? && (forall q :: 0 <= q < |a.heap| && q != p ==> b.heap[q] == a.heap[q])
    requires b.made == a.made && b.ran == a.ran && b.budget == a.budget && Waiting(b.heap) + taken == Waiting(a.heap)
    requires Evolves(b, c, taken, whole)
    ensures Evolves(a, c, multiset{}, whole)
  {
    hide Waiting, ValidHeap;
    assert Total(b) + taken == Total(a);
  }

  /** In every heap that came to be from the empty one, a reaction waits or ran, at most once in all; and
      without a fault exactly once. */
  lemma AtMostOnce(a: World, b: World, whole: bool, n: nat)
    requires a.heap == [] && a.made == 0 && a.ran == multiset{} && Evolves(a, b, multiset{}, whole)
    ensures b.ran[n] + Waiting(b.heap)[n] <= (if n < b.made then 1 else 0)
    ensures whole && n < b.made ==> b.ran[n] + Waiting(b.heap)[n] == 1
  {
    RangeOnce(0, b.made, n);
    assert Total(b)[n] <= (Total(a) + multiset{} + Range(0, b.made))[n];
  }

  class Heap {
    const script: nat -> Script
    var heap: seq<Record>
    var made: nat
    var budget: nat
    ghost var ran: multiset<nat>

    ghost function Now(): World
      reads this
    {
      World(heap, made, ran, budget)
    }

    ghost predicate Valid()
      reads this
    {
      ValidHeap(heap)
    }

    constructor (script: nat -> Script, budget: nat)
      ensures Valid() && Now() == World([], 0, multiset{}, budget) && this.script == script
    {
      this.script, this.heap, this.made, this.budget := script, [], 0, budget;
      this.ran := multiset{};
    }

    method NewPromise() returns (p: nat)
      requires Valid()
      modifies `heap
      ensures Valid() && p == |old(heap)| && heap == old(heap) + [Record(Pending, Plain(0), [])]
    {
      ValidGrown(heap, Record(Pending, Plain(0), []));
      p := |heap|;
      heap := heap + [Record(Pending, Plain(0), [])];
    }

    /** Puts a reaction on a pending promise. */
    method Enqueue(p: nat, onOk: Handler, onErr: Handler, derived: nat, hasDerived: bool)
      requires Valid() && p < |heap| && heap[p].state.Pending?
      requires KnownReaction(heap, Reaction(onOk, onErr, derived, hasDerived, made))
      modifies `heap, `made
      ensures Evolves(old(Now()), Now(), multiset{}, true) && Shrinks(old(Now()), Now())
      ensures heap[p].reactions == old(heap[p].reactions) + [Reaction(onOk, onErr, derived, hasDerived, old(made))]
      ensures heap == old(heap)[p := old(heap[p]).(reactions := heap[p].reactions)]
    {
      hide Total, Waiting, ValidHeap, PendingCount, Range;
      var r := Reaction(onOk, onErr, derived, hasDerived, made);
      Enqueued(Now(), p, r);
      heap := heap[p := heap[p].(reactions := heap[p].reactions + [r])];
      made := made + 1;
    }

    /** Settles p with a value, or lets it follow the promise that the value is. Says whether the
        machine faulted on the way. */
    method Settle(p: nat, ok: bool, v: Value) returns (fault: bool)
      requires Valid() && p < |heap| && KnownValue(heap, v)
      modifies `heap, `made, `budget, `ran
      ensures Evolves(old(Now()), Now(), multiset{}, !fault) && Shrinks(old(Now()), Now())
      ensures old(heap[p].state.Pending?) && !(ok && v.Promised?) ==>
                heap[p].state == (if ok then Fulfilled else Rejected) && heap[p].value == v
      ensures old(heap[p].state.Pending?) && ok && v.Promised? && !old(heap[v.p].state.Pending?) ==>
                heap[p].state == old(heap[v.p].state) && heap[p].value == old(heap[v.p].value)
      ensures ok && v.Promised? && old(heap[v.p].state.Pending?) ==>
                !fault && heap[p].state == old(heap[p].state)
                && heap[v.p].reactions == old(heap[v.p].reactions) + [Reaction(Settler(p, true), Settler(p, false), 0, false, old(made))]
      decreases budget, PendingCount(heap), if ok && v.Promised? then 2 else 1
    {
      hide Total, Waiting, PendingCount, Range, ValidHeap;
      if ok && v.Promised? {
        var src := heap[v.p];
        KnownContents(heap, v.p);
        if src.state.Pending? {
          Enqueue(v.p, Settler(p, true), Settler(p, false), 0, false);
          return false;
        }
        fault := Settle(p, src.state.Fulfilled?, src.value);
        return;
      }
      if !heap[p].state.Pending? {
        EvolvesNot(Now());
        return false;
      }
      ghost var start := Now();
      var reactions := heap[p].reactions;
      KnownContents(heap, p);
      Taken(heap, p, Record(if ok then Fulfilled else Rejected, v, []));
      heap := heap[p := Record(if ok then Fulfilled else Rejected, v, [])];
      ghost var settled := Now();
      fault := RunReactions(reactions, ok, v);
      Settles(start, settled, Now(), p, Serials(reactions), !fault);
    }

    /** Runs the reactions that were taken from a promise, one after the other. */
    method RunReactions(reactions: seq<Reaction>, ok: bool, v: Value) returns (fault: bool)
      requires Valid() && KnownValue(heap, v) && forall i :: 0 <= i < |reactions| ==> KnownReaction(heap, reactions[i])
      modifies `heap, `made, `budget, `ran
      ensures Evolves(old(Now()), Now(), Serials(reactions), !fault) && Shrinks(old(Now()), Now())
      decreases budget, PendingCount(heap), 5
    {
      hide Total, Range, Serials, Waiting, ValidHeap, PendingCount;
      EvolvesNot(Now());
      SerialsNone(reactions);
      for i := 0 to |reactions|
        invariant Evolves(old(Now()), Now(), Serials(reactions[..i]), true) && Shrinks(old(Now()), Now())
      {
        ghost var before := Now();
        var r := reactions[i];
        assert KnownReaction(old(heap), r);
        fault := React(ok, v, r);
        EvolvesOn(old(Now()), before, Now(), Serials(reactions[..i]), multiset{r.serial}, !fault);
        SerialsNext(reactions, i);
        if fault {
          SerialsPrefix(reactions, i + 1);
          EvolvesFault(old(Now()), Now(), Serials(reactions[..i + 1]), Serials(reactions), false);
          return true;
        }
      }
      assert reactions[..|reactions|] == reactions;
      fault := false;
    }

    /** Runs one reaction: its handler for this outcome, and then what is derived from it. */
    method React(ok: bool, v: Value, r: Reaction) returns (fault: bool)
      requires Valid() && KnownValue(heap, v) && KnownReaction(heap, r)
      modifies `heap, `made, `budget, `ran
      ensures Evolves(old(Now()), Now(), multiset{r.serial}, !fault) && Shrinks(old(Now()), Now())
      decreases budget, PendingCount(heap), 4
    {
      hide Total, ValidHeap, PendingCount;
      ran := ran + multiset{r.serial};
      ghost var start := Now();
      Ran(old(Now()), start, r.serial);
      var out := CallHandler(if ok then r.onOk else r.onErr, ok, v);
      ghost var called := Now();
      EvolvesOn(old(Now()), start, called, multiset{r.serial}, multiset{}, !out.Faults?);
      assert multiset{r.serial} + multiset{} == multiset{r.serial};
      if out.Faults? {
        return true;
      }
      if r.hasDerived {
        fault := Settle(r.derived, out.Returns?, out.v);
        EvolvesOn(old(Now()), called, Now(), multiset{r.serial}, multiset{}, !fault);
      } else {
        fault := false;
      }
    }

    /** An absent handler passes on what it is given. */
    method CallHandler(handler: Handler, ok: bool, v: Value) returns (out: Outcome)
      requires Valid() && KnownValue(heap, v) && KnownHandler(heap, handler)
      modifies `heap, `made, `budget, `ran
      ensures Evolves(old(Now()), Now(), multiset{}, !out.Faults?) && Shrinks(old(Now()), Now())
      ensures !out.Faults? ==> KnownValue(heap, out.v)
      ensures handler.Absent? ==> Now() == old(Now()) && out == (if ok then Returns(v) else Throws(v))
      decreases budget, PendingCount(heap), 3
    {
      match handler {
        case Absent =>
          out := if ok then Returns(v) else Throws(v);
          EvolvesNot(Now());
        case Settler(q, good) =>
          var fault := Settle(q, good, v);
          out := if fault then Faults else Returns(Plain(0));
        case Callback(_) =>
          out := RunCallback();
      }
    }

    /** A callback does whatever its script says, and may set off any number of reactions. */
    method RunCallback() returns (out: Outcome)
      requires Valid()
      modifies `heap, `made, `budget, `ran
      ensures Evolves(old(Now()), Now(), multiset{}, !out.Faults?) && Shrinks(old(Now()), Now())
      ensures !out.Faults? ==> budget < old(budget) && KnownValue(heap, out.v)
      decreases budget, PendingCount(heap), 0
    {
      EvolvesNot(Now());
      if budget == 0 {
        return Faults;
      }
      budget := budget - 1;
      var todo := script(budget);
      for i := 0 to |todo.actions|
        invariant Evolves(old(Now()), Now(), multiset{}, true) && budget < old(budget)
      {
        ghost var before := Now();
        var fault := Perform(todo.actions[i]);
        EvolvesOn(old(Now()), before, Now(), multiset{}, multiset{}, !fault);
        if fault {
          return Faults;
        }
      }
      out := todo.outcome;
      if !out.Faults? && !KnownValue(heap, out.v) {
        out := Returns(Plain(0));
      }
    }

    /** One action of a callback; it may name a promise that does not exist, and then nothing happens. */
    method Perform(action: Action) returns (fault: bool)
      requires Valid()
      modifies `heap, `made, `budget, `ran
      ensures Evolves(old(Now()), Now(), multiset{}, !fault)
      decreases budget, PendingCount(heap) + 1, 6
    {
      EvolvesNot(Now());
      fault := false;
      match action
      case Make =>
        var p := NewPromise();
        Grown(old(Now()), Now());
      case Resolve(p, ok, v) =>
        if p < |heap| && KnownValue(heap, v) {
          fault := Settle(p, ok, v);
        }
      case Then(p, onOk, onErr) =>
        if p < |heap| && KnownHandler(heap, onOk) && KnownHandler(heap, onErr) {
          var d: nat;
          d, fault := Chain(p, onOk, onErr);
        }
    }

    /** `then`: a new promise is derived from p; the reaction waits if p does, and runs at once if p is
        settled. */
    method Chain(p: nat, onOk: Handler, onErr: Handler) returns (derived: nat, fault: bool)
      requires Valid() && p < |heap| && KnownHandler(heap, onOk) && KnownHandler(heap, onErr)
      modifies `heap, `made, `budget, `ran
      ensures Evolves(old(Now()), Now(), multiset{}, !fault) && derived == |old(heap)| < |heap|
      ensures old(heap[p].state.Pending?) ==>
                !fault && heap[p].reactions == old(heap[p].reactions) + [Reaction(onOk, onErr, derived, true, old(made))]
      decreases budget, PendingCount(heap) + 1, 5
    {
      hide Total, Waiting, PendingCount, Range, ValidHeap;
      derived := NewPromise();
      Grown(old(Now()), Now());
      ghost var grown := Now();
      var c := heap[p];
      KnownContents(heap, p);
      var r := Reaction(onOk, onErr, derived, true, made);
      if c.state.Pending? {
        Enqueue(p, onOk, onErr, derived, true);
        EvolvesOn(old(Now()), grown, Now(), multiset{}, multiset{}, true);
        fault := false;
      } else {
        made := made + 1;
        ghost var numbered := Now();
        fault := React(c.state.Fulfilled?, c.value, r);
        RunsNew(grown, numbered, Now(), !fault);
        EvolvesOn(old(Now()), grown, Now(), multiset{}, multiset{}, !fault);
      }
    }
  }

  lemma Grown(a: World, b: World)
    requires ValidHeap(a.heap) && b == a.(heap := a.heap + [Record(Pending, Plain(0), [])])
    ensures Evolves(a, b, multiset{}, true) && PendingCount(b.heap) == PendingCount(a.heap) + 1
  {
    ValidGrown(a.heap, Record(Pending, Plain(0), []));
    assert b.heap[..|a.heap|] == a.heap;
  }

  /** A reaction that is made and run without ever waiting. */
  lemma RunsNew(a: World, b: World, c: World, whole: bool)
    requires b == a.(made := a.made + 1) && Evolves(b, c, multiset{a.made}, whole)
    ensures Evolves(a, c, multiset{}, whole)
  {
    hide Waiting, ValidHeap;
    RangeJoins(a.made, a.made + 1, c.made);
    assert Range(a.made, a.made + 1) == multiset{a.made};
  }
}
