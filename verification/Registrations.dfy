// Registration objects over a whole run: whoever is moved, swapped, reset or
// destroyed, the valid ones and the handlers in the loop match one to one.

module Registrations {
  import opened HandlerMaps

  /** The loop and every registration object alive, by address. */
  datatype Owners = Owners(loop: Handlers, objects: map<nat, Claim>)

  datatype Operation =
    | Register(at: nat, claim: Claim, entry: Entry) // a new object from one of the three registering members
    | Take(at: nat, from: nat)                      // move construction
    | Assign(at: nat, from: nat)                    // move assignment
    | Reset(at: nat)
    | Destroy(at: nat)

  function Registering(l: Handlers, c: Claim, e: Entry): Registered {
    match c
    case Moved => Registered(l, Moved)
    case Read(h) => RegisterRead(l, h, e)
    case Write(h) => RegisterWrite(l, h, e)
    case Exception(h) => RegisterException(l, h, e.callback)
  }

  /** An operation on addresses that do not allow it does nothing. */
  function Do(o: Owners, op: Operation): Owners {
    match op
    case Register(at, c, e) =>
      if at in o.objects then o
      else var r := Registering(o.loop, c, e); Owners(r.loop, o.objects[at := r.claim])
    case Take(at, from) =>
      if at in o.objects || from !in o.objects then o
      else o.(objects := o.objects[at := o.objects[from]][from := Moved])
    case Assign(at, from) =>
      if at !in o.objects || from !in o.objects then o
      else o.(objects := o.objects[at := o.objects[from]][from := o.objects[at]])
    case Reset(at) =>
      if at !in o.objects then o
      else Owners(Release(o.loop, o.objects[at]), o.objects[at := Moved])
    case Destroy(at) =>
      if at !in o.objects then o
      else Owners(Release(o.loop, o.objects[at]), o.objects - {at})
  }

  function DoAll(o: Owners, ops: seq<Operation>): Owners
    decreases ops
  {
    if ops == [] then o else DoAll(Do(o, ops[0]), ops[1..])
  }

  ghost predicate Claimed(o: Owners, c: Claim) {
    exists k :: k in o.objects && o.objects[k] == c
  }

  /** Every handler has a valid object, every valid object a handler, and no two objects the same one. */
  ghost predicate Matched(o: Owners) {
    && (forall c: Claim :: !c.Moved? ==> (o.loop.Has(c) <==> Claimed(o, c)))
    && (forall j, k :: j in o.objects && k in o.objects && j != k && !o.objects[j].Moved?
                       ==> o.objects[j] != o.objects[k])
  }

  lemma RegisteringHas(l: Handlers, c: Claim, e: Entry, d: Claim)
    ensures var r := Registering(l, c, e);
            && (r.claim.Moved? <==> c.Moved? || l.Has(c))
            && (!r.claim.Moved? ==> r.claim == c)
            && (r.loop.Has(d) <==> l.Has(d) || (d == c && !c.Moved?))
  {
  }

  lemma ReleaseHas(l: Handlers, c: Claim, d: Claim)
    ensures Release(l, c).Has(d) <==> l.Has(d) && d != c
  {
  }

  lemma DoMatches(o: Owners, op: Operation)
    requires Matched(o)
    ensures Matched(Do(o, op))
  {
    match op
    case Register(at, c, e) => RegisterMatches(o, at, c, e);
    case Take(at, from) => TakeMatches(o, at, from);
    case Assign(at, from) => AssignMatches(o, at, from);
    case Reset(at) => ResetMatches(o, at);
    case Destroy(at) => DestroyMatches(o, at);
  }

  lemma RegisterMatches(o: Owners, at: nat, c: Claim, e: Entry)
    requires Matched(o)
    ensures Matched(Do(o, Register(at, c, e)))
  {
    if at !in o.objects {
      var p := Do(o, Register(at, c, e));
      forall d: Claim | !d.Moved? ensures p.loop.Has(d) <==> Claimed(p, d) {
        RegisteringHas(o.loop, c, e, d);
        if Claimed(o, d) {
          var k :| k in o.objects && o.objects[k] == d;
          assert k in p.objects && p.objects[k] == d;
        }
        assert p.objects[at] == Registering(o.loop, c, e).claim;
      }
      RegisteringHas(o.loop, c, e, c);
      if !p.objects[at].Moved? {
        assert !Claimed(o, c);
      }
    }
  }

  lemma TakeMatches(o: Owners, at: nat, from: nat)
    requires Matched(o)
    ensures Matched(Do(o, Take(at, from)))
  {
    if at !in o.objects && from in o.objects {
      var p := Do(o, Take(at, from));
      forall d: Claim | !d.Moved? ensures Claimed(o, d) <==> Claimed(p, d) {
        if Claimed(o, d) {
          var k :| k in o.objects && o.objects[k] == d;
          var k' := if k == from then at else k;
          assert k' in p.objects && p.objects[k'] == d;
        }
      }
    }
  }

  lemma AssignMatches(o: Owners, at: nat, from: nat)
    requires Matched(o)
    ensures Matched(Do(o, Assign(at, from)))
  {
    if at in o.objects && from in o.objects {
      var p := Do(o, Assign(at, from));
      forall d: Claim | !d.Moved? ensures Claimed(o, d) <==> Claimed(p, d) {
        if Claimed(o, d) {
          var k :| k in o.objects && o.objects[k] == d;
          var k' := if k == from then at else if k == at then from else k;
          assert k' in p.objects && p.objects[k'] == d;
        }
      }
    }
  }

  lemma ResetMatches(o: Owners, at: nat)
    requires Matched(o)
    ensures Matched(Do(o, Reset(at)))
  {
    if at in o.objects {
      var p := Do(o, Reset(at));
      forall d: Claim | !d.Moved? ensures p.loop.Has(d) <==> Claimed(p, d) {
        ReleaseHas(o.loop, o.objects[at], d);
        if Claimed(o, d) && d != o.objects[at] {
          var k :| k in o.objects && o.objects[k] == d;
          assert k in p.objects && p.objects[k] == d;
        }
      }
    }
  }

  lemma DestroyMatches(o: Owners, at: nat)
    requires Matched(o)
    ensures Matched(Do(o, Destroy(at)))
  {
    if at in o.objects {
      var p := Do(o, Destroy(at));
      forall d: Claim | !d.Moved? ensures p.loop.Has(d) <==> Claimed(p, d) {
        ReleaseHas(o.loop, o.objects[at], d);
        if Claimed(o, d) && d != o.objects[at] {
          var k :| k in o.objects && o.objects[k] == d;
          assert k in p.objects && p.objects[k] == d;
        }
      }
    }
  }

  /** Over any run. */
  lemma {:induction false} RunMatches(o: Owners, ops: seq<Operation>)
    requires Matched(o)
    ensures Matched(DoAll(o, ops))
    decreases ops
  {
    if ops != [] {
      DoMatches(o, ops[0]);
      RunMatches(Do(o, ops[0]), ops[1..]);
    }
  }

  /** A run is its operations, one after the other. */
  lemma {:induction false} RunNext(o: Owners, ops: seq<Operation>, op: Operation)
    ensures DoAll(o, ops + [op]) == Do(DoAll(o, ops), op)
    decreases ops
  {
    hide Do;
    if ops == [] {
      assert [op][1..] == [];
      assert ops + [op] == [op];
    } else {
      assert (ops + [op])[1..] == ops[1..] + [op];
      RunNext(Do(o, ops[0]), ops[1..], op);
    }
  }

  /** A loop without handlers, and no registration objects. */
  function Nobody(): Owners {
    Owners(Handlers(map[], map[], map[]), map[])
  }

  /** So from the start, whatever objects are made, moved, swapped, reset and destroyed. */
  lemma EveryRunMatches(ops: seq<Operation>)
    ensures Matched(DoAll(Nobody(), ops))
  {
    assert Matched(Nobody());
    RunMatches(Nobody(), ops);
  }

  // ------------------------------------------------ what one operation does

  /** The handler that a claim stands for is this one. */
  predicate Stands(l: Handlers, c: Claim, e: Entry) {
    match c
    case Moved => false
    case Read(h) => h in l.readFns && l.readFns[h] == e
    case Write(h) => h in l.writeFns && l.writeFns[h] == e
    case Exception(h) => h in l.exceptFns && l.exceptFns[h] == e.callback
  }

  /** Only the handler that a claim stands for came or went. */
  ghost predicate OnlyAt(l: Handlers, l': Handlers, c: Claim) {
    forall d: Claim, e: Entry :: d != c ==> (Stands(l', d, e) <==> Stands(l, d, e))
  }

  /** A new object owns the handler it registers, unless the handle had one, and then nothing changes but that it is. */
  lemma RegisterOwns(o: Owners, at: nat, c: Claim, e: Entry)
    requires at !in o.objects
    ensures var p := Do(o, Register(at, c, e));
            && p.objects.Keys == o.objects.Keys + {at} && (forall k :: k in o.objects ==> p.objects[k] == o.objects[k])
            && if c.Moved? || o.loop.Has(c) then p.objects[at] == Moved && p.loop == o.loop
               else p.objects[at] == c && Stands(p.loop, c, e) && OnlyAt(o.loop, p.loop, c)
  {
  }

  /** A move hands on what is owned, and touches no handler. */
  lemma TakeOwns(o: Owners, at: nat, from: nat)
    requires at !in o.objects && from in o.objects
    ensures var p := Do(o, Take(at, from));
            && p.loop == o.loop && p.objects.Keys == o.objects.Keys + {at}
            && p.objects[at] == o.objects[from] && p.objects[from] == Moved
            && forall k :: k in o.objects && k != from ==> p.objects[k] == o.objects[k]
  {
  }

  /** Assigning swaps what is owned, and touches no handler. */
  lemma AssignOwns(o: Owners, at: nat, from: nat)
    requires at in o.objects && from in o.objects
    ensures var p := Do(o, Assign(at, from));
            && p.loop == o.loop && p.objects.Keys == o.objects.Keys
            && p.objects[at] == o.objects[from] && p.objects[from] == o.objects[at]
            && forall k :: k in o.objects && k != at && k != from ==> p.objects[k] == o.objects[k]
  {
  }

  /** An object that is reset, or is no more, owns nothing, and the handler it owned is gone, and no other. */
  lemma ReleaseOwns(o: Owners, at: nat, destroyed: bool)
    requires at in o.objects
    ensures var p := Do(o, if destroyed then Destroy(at) else Reset(at));
            && p.objects.Keys == (if destroyed then o.objects.Keys - {at} else o.objects.Keys)
            && (!destroyed ==> p.objects[at] == Moved)
            && !p.loop.Has(o.objects[at]) && OnlyAt(o.loop, p.loop, o.objects[at])
            && forall k :: k in o.objects && k != at ==> k in p.objects && p.objects[k] == o.objects[k]
  {
  }

  /** The entry that a claim stands for. */
  predicate SameEntry(l: Handlers, l': Handlers, c: Claim) {
    match c
    case Moved => true
    case Read(h) => h in l.readFns && h in l'.readFns && l'.readFns[h] == l.readFns[h]
    case Write(h) => h in l.writeFns && h in l'.writeFns && l'.writeFns[h] == l.writeFns[h]
    case Exception(h) => h in l.exceptFns && h in l'.exceptFns && l'.exceptFns[h] == l.exceptFns[h]
  }

  /** Whatever is done to other objects, an object keeps its claim and its handler as it was registered. */
  lemma OthersKept(o: Owners, op: Operation, k: nat)
    requires Matched(o) && k in o.objects && op.at != k && (op.Take? || op.Assign? ==> op.from != k)
    ensures var p := Do(o, op);
            k in p.objects && p.objects[k] == o.objects[k] && SameEntry(o.loop, p.loop, o.objects[k])
  {
    if !o.objects[k].Moved? {
      assert Claimed(o, o.objects[k]);
    }
  }
}
