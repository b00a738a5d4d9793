/** The event bus: subscriptions, their index by event type, and publishing while handlers change both. */
module EventBus {
  import opened Results

  const WILDCARD := "*"

  /** Handlers are told apart by number. */
  datatype Subscription = Subscription(eventType: string, handler: nat)

  datatype Op = Subscribe(eventType: string, handler: nat) | Unsubscribe(id: nat)

  // ----- the bus as a value -----

  /** The live subscriptions, and how many identifiers have been issued: a uuid stands for the next number. */
  datatype Bus = Bus(subscriptions: map<nat, Subscription>, issued: nat)

  const NEW_BUS := Bus(map[], 0)

  function Apply(b: Bus, op: Op): Bus {
    match op
    case Subscribe(eventType, handler) =>
      if eventType == "" then b
      else Bus(b.subscriptions[b.issued := Subscription(eventType, handler)], b.issued + 1)
    case Unsubscribe(id) => b.(subscriptions := b.subscriptions - {id})
  }

  function ApplyAll(b: Bus, ops: seq<Op>): Bus
    decreases |ops|
  {
    if ops == [] then b else Apply(ApplyAll(b, ops[..|ops| - 1]), ops[|ops| - 1])
  }

  lemma {:induction false} ApplyAllConcat(b: Bus, first: seq<Op>, second: seq<Op>)
    ensures ApplyAll(b, first + second) == ApplyAll(ApplyAll(b, first), second)
    decreases |second|
  {
    hide Apply;
    if second == [] {
      assert first + second == first;
    } else {
      assert (first + second)[..|first + second| - 1] == first + second[..|second| - 1];
      ApplyAllConcat(b, first, second[..|second| - 1]);
    }
  }

  /** Who receives an event of this type: the live subscriptions of the type and the wildcard ones, each once. */
  function Receivers(b: Bus, eventType: string): set<nat> {
    set id | id in b.subscriptions && b.subscriptions[id].eventType in [eventType, WILDCARD]
  }

  /** What a handler does when called: operations on the bus, and whether it then raises. */
  datatype Reaction = Reaction(ops: seq<Op>, raises: bool)

  /** A publication raises exactly when a handler that receives it does. */
  predicate SomeoneRaises(b: Bus, eventType: string, reactions: nat -> Reaction) {
    exists id :: id in Receivers(b, eventType) && reactions(b.subscriptions[id].handler).raises
  }

  // ----- the class -----

  class InMemoryEventBus {
    var subscriptions: map<nat, Subscription>
    var byEventType: map<string, set<nat>>
    var issued: nat

    function View(): Bus
      reads this
    {
      Bus(subscriptions, issued)
    }

    function Indexed(eventType: string): set<nat>
      reads this
    {
      if eventType in byEventType then byEventType[eventType] else {}
    }

    /** The index of every type is exactly its live subscriptions. */
    ghost predicate Valid()
      reads this
    {
      && (forall id :: id in subscriptions ==> id < issued)
      && (forall t, id :: id in Indexed(t) <==> id in subscriptions && subscriptions[id].eventType == t)
    }

    constructor ()
      ensures Valid() && View() == NEW_BUS
    {
      subscriptions, byEventType, issued := map[], map[], 0;
    }

    /** `subscribe`; None stands for the exception about a missing event type. */
    method Subscribe(eventType: string, handler: nat) returns (id: Option<nat>)
      requires Valid()
      modifies this
      ensures Valid() && View() == Apply(old(View()), Op.Subscribe(eventType, handler))
      ensures id == if eventType == "" then None else Some(old(issued))
      ensures id.Some? ==> id.value !in old(subscriptions)
    {
      if eventType == "" {
        return None;
      }
      id := Some(issued);
      byEventType := byEventType[eventType := Indexed(eventType) + {issued}];
      subscriptions := subscriptions[issued := Subscription(eventType, handler)];
      issued := issued + 1;
      assert forall t :: Indexed(t) == if t == eventType then old(Indexed(t)) + {id.value} else old(Indexed(t));
    }

    /** `unsubscribe` */
    method Unsubscribe(id: nat) returns (done: bool)
      requires Valid()
      modifies this
      ensures Valid() && View() == Apply(old(View()), Op.Unsubscribe(id))
      ensures done == (id in old(subscriptions))
    {
      if id !in subscriptions {
        assert subscriptions - {id} == subscriptions;
        return false;
      }
      var eventType := subscriptions[id].eventType;
      assert id in Indexed(eventType);
      subscriptions := subscriptions - {id};
      byEventType := byEventType[eventType := Indexed(eventType) - {id}];
      assert forall t :: Indexed(t) == if t == eventType then old(Indexed(t)) - {id} else old(Indexed(t));
      done := true;
    }

    /** `_handlers_for`: the subscriptions found through the index, in some order. */
    method HandlersFor(eventType: string) returns (ids: seq<nat>)
      requires Valid()
      ensures forall id :: id in ids <==> id in Receivers(View(), eventType)
      ensures forall i, j :: 0 <= i < j < |ids| ==> ids[i] != ids[j]
    {
      var remaining := Indexed(eventType) + Indexed(WILDCARD);
      ids := [];
      while remaining != {}
        invariant forall id :: id in ids || id in remaining <==> id in Indexed(eventType) || id in Indexed(WILDCARD)
        invariant forall id :: id in ids ==> id !in remaining
        invariant forall i, j :: 0 <= i < j < |ids| ==> ids[i] != ids[j]
        decreases |remaining|
      {
        var id :| id in remaining;
        remaining := remaining - {id};
        if id in subscriptions {
          ids := ids + [id];
        }
      }
    }

    method React(ops: seq<Op>)
      requires Valid()
      modifies this
      ensures Valid() && View() == ApplyAll(old(View()), ops)
    {
      for i := 0 to |ops|
        invariant Valid() && View() == ApplyAll(old(View()), ops[..i])
      {
        assert ops[..i + 1][..i] == ops[..i];
        match ops[i] {
          case Subscribe(eventType, handler) => var _ := Subscribe(eventType, handler);
          case Unsubscribe(id) => var _ := Unsubscribe(id);
        }
      }
      assert ops[..|ops|] == ops;
    }

    /**
     `publish`: the handlers are fixed before the first one is called, so whatever they subscribe and unsubscribe,
     each of them is called exactly once and no other is; only a handler that raises cuts the round short.
    */
    method Publish(eventType: string, reactions: nat -> Reaction) returns (called: seq<nat>, raised: bool)
      requires Valid()
      modifies this
      ensures Valid() && View() == ApplyAll(old(View()), Done(old(subscriptions), called, reactions))
      ensures forall i, j :: 0 <= i < j < |called| ==> called[i] != called[j]
      ensures forall id :: id in called ==> id in Receivers(old(View()), eventType)
      ensures !raised ==> forall id :: id in Receivers(old(View()), eventType) ==> id in called
      ensures raised <==> exists i :: 0 <= i < |called| && called[i] in old(subscriptions) && reactions(old(subscriptions)[called[i]].handler).raises
      ensures raised <==> SomeoneRaises(old(View()), eventType, reactions)
    {
      var snapshot := subscriptions;
      var ids := HandlersFor(eventType);
      called, raised := [], false;
      while |called| < |ids|
        invariant Valid() && called <= ids
        invariant View() == ApplyAll(old(View()), Done(snapshot, called, reactions))
        invariant forall i :: 0 <= i < |called| ==> called[i] in snapshot && !reactions(snapshot[called[i]].handler).raises
        decreases |ids| - |called|
      {
        var id := ids[|called|];
        assert id in ids;
        var reaction := reactions(snapshot[id].handler);
        ghost var before := called;
        called := called + [id];
        assert called[..|before|] == before;
        React(reaction.ops);
        ApplyAllConcat(old(View()), Done(snapshot, before, reactions), reaction.ops);
        if reaction.raises {
          assert called[|before|] == id;
          raised := true;
          return;
        }
      }
    }
  }

  /** Everything the called handlers do, in the order they are called. */
  function Done(subscriptions: map<nat, Subscription>, called: seq<nat>, reactions: nat -> Reaction): seq<Op>
    decreases |called|
  {
    if called == [] then []
    else
      var id := called[|called| - 1];
      Done(subscriptions, called[..|called| - 1], reactions)
      + if id in subscriptions then reactions(subscriptions[id].handler).ops else []
  }

  // ----- who is live after any sequence of operations -----

  /** The identifiers issued by these operations. */
  function Issued(ops: seq<Op>): nat
    decreases |ops|
  {
    if ops == [] then 0
    else Issued(ops[..|ops| - 1]) + if ops[|ops| - 1].Subscribe? && ops[|ops| - 1].eventType != "" then 1 else 0
  }

  /** The i-th operation makes this subscription and no later one removes it. */
  ghost predicate MadeAndKept(ops: seq<Op>, i: nat, id: nat, s: Subscription) {
    && i < |ops|
    && ops[i] == Subscribe(s.eventType, s.handler) && s.eventType != "" && Issued(ops[..i]) == id
    && forall j :: i < j < |ops| ==> ops[j] != Unsubscribe(id)
  }

  /** From an empty bus: exactly the subscriptions made and not since removed are live, under their own identifiers. */
  lemma {:induction false} LiveExactly(ops: seq<Op>, id: nat, s: Subscription)
    ensures ApplyAll(NEW_BUS, ops).issued == Issued(ops)
    ensures id in ApplyAll(NEW_BUS, ops).subscriptions && ApplyAll(NEW_BUS, ops).subscriptions[id] == s
            <==> exists i :: MadeAndKept(ops, i, id, s)
    decreases |ops|
  {
    if ops == [] {
    } else {
      var init, last := ops[..|ops| - 1], ops[|ops| - 1];
      LiveExactly(init, id, s);
      assert ops == init + [last];
      forall i: nat | i < |init|
        ensures MadeAndKept(ops, i, id, s) <==> MadeAndKept(init, i, id, s) && last != Unsubscribe(id)
      {
        assert init[..i] == ops[..i];
      }
      IssuedBound(init);
      assert ops[..|init|] == init;
      assert MadeAndKept(ops, |init|, id, s)
             <==> last == Subscribe(s.eventType, s.handler) && s.eventType != "" && Issued(init) == id;
      assert (exists i :: MadeAndKept(ops, i, id, s))
             <==> MadeAndKept(ops, |init|, id, s) || (last != Unsubscribe(id) && exists i :: MadeAndKept(init, i, id, s));
    }
  }

  /**
   Who receives an event, from an empty bus on: exactly the subscriptions that were made to its very type or to "*" and
   not removed since; each calls the handler it was made with.
  */
  lemma {:induction false} ReceivesExactly(ops: seq<Op>, published: string, id: nat)
    ensures id in Receivers(ApplyAll(NEW_BUS, ops), published)
            <==> exists i: nat, s :: MadeAndKept(ops, i, id, s) && (s.eventType == published || s.eventType == "*")
    ensures forall i: nat, s :: MadeAndKept(ops, i, id, s) ==>
              id in ApplyAll(NEW_BUS, ops).subscriptions && ApplyAll(NEW_BUS, ops).subscriptions[id].handler == s.handler
  {
    hide MadeAndKept, ApplyAll;
    var bus := ApplyAll(NEW_BUS, ops);
    forall i: nat, s | MadeAndKept(ops, i, id, s)
      ensures id in bus.subscriptions && bus.subscriptions[id] == s
    {
      LiveExactly(ops, id, s);
    }
    if id in bus.subscriptions {
      var s := bus.subscriptions[id];
      LiveExactly(ops, id, s);
      var i: nat :| MadeAndKept(ops, i, id, s);
    }
  }

  lemma {:induction false} IssuedBound(ops: seq<Op>)
    ensures forall id :: id in ApplyAll(NEW_BUS, ops).subscriptions ==> id < ApplyAll(NEW_BUS, ops).issued
    decreases |ops|
  {
    if ops == [] {
    } else {
      IssuedBound(ops[..|ops| - 1]);
    }
  }
}
