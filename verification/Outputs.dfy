/** The balance that sits on an outpoint: the Receive rows written for it. */
module Outputs {
  import opened Basics
  import opened Ledger
  import opened Transactions

  predicate IsReceiveAt(e: Entry, o: Outpoint, rune: RuneId) {
    e.operation == Receive && e.rune == rune && e.Created() == Some(o)
  }

  /** The Receive rows of one rune at one outpoint, in the order of the ledger, as balances of their owners. */
  function ReceivesAt(hist: seq<Entry>, o: Outpoint, rune: RuneId): seq<Balance> {
    if hist == [] then []
    else ReceivesAt(DropLast(hist), o, rune)
         + if IsReceiveAt(Last(hist), o, rune) then [Balance(Last(hist).address, Last(hist).Amount())] else []
  }

  lemma {:induction false} ReceivesAppend(a: seq<Entry>, b: seq<Entry>, o: Outpoint, rune: RuneId)
    ensures ReceivesAt(a + b, o, rune) == ReceivesAt(a, o, rune) + ReceivesAt(b, o, rune)
  {
    if b == [] {
      assert a + b == a;
    } else {
      assert DropLast(a + b) == a + DropLast(b);
      ReceivesAppend(a, DropLast(b), o, rune);
    }
  }

  lemma {:induction false} NoReceives(hist: seq<Entry>, o: Outpoint, rune: RuneId)
    requires forall e :: e in hist ==> !IsReceiveAt(e, o, rune)
    ensures ReceivesAt(hist, o, rune) == []
  {
    if hist != [] {
      NoReceives(DropLast(hist), o, rune);
    }
  }

  function AtWeight(o: Outpoint, rune: RuneId, who: Who): Entry -> nat {
    (e: Entry) => if IsReceiveAt(e, o, rune) && who.Matches(e.address) then e.Amount() else 0
  }

  lemma OneReceived(e: Entry, o: Outpoint, rune: RuneId, who: Who)
    ensures AtWeight(o, rune, who)(e) == if IsReceiveAt(e, o, rune) then HeldBy(who)(Balance(e.address, e.Amount())) else 0
  {
  }

  lemma NothingReceived(o: Outpoint, rune: RuneId, who: Who)
    ensures Held(ReceivesAt([], o, rune), who) == 0
  {
  }

  lemma ReceivesSnoc(hist: seq<Entry>, e: Entry, o: Outpoint, rune: RuneId)
    ensures ReceivesAt(hist + [e], o, rune)
         == ReceivesAt(hist, o, rune) + if IsReceiveAt(e, o, rune) then [Balance(e.address, e.Amount())] else []
  {
    hide IsReceiveAt;
    assert DropLast(hist + [e]) == hist;
  }

  lemma HeldSnoc(q: seq<Balance>, b: Balance, who: Who)
    ensures Held(q + [b], who) == Held(q, who) + HeldBy(who)(b)
  {
    hide HeldBy;
    SumSnoc(q, b, HeldBy(who));
  }

  lemma {:induction false} ReceivesHeld(hist: seq<Entry>, o: Outpoint, rune: RuneId, who: Who)
    ensures Held(ReceivesAt(hist, o, rune), who) == Sum(hist, AtWeight(o, rune, who))
  {
    hide IsReceiveAt, AtWeight, HeldBy, ReceivesAt, Held;
    if hist == [] {
      NothingReceived(o, rune, who);
    } else {
      var e, front := Last(hist), ReceivesAt(DropLast(hist), o, rune);
      ReceivesHeld(DropLast(hist), o, rune, who);
      OneReceived(e, o, rune, who);
      assert DropLast(hist) + [e] == hist;
      ReceivesSnoc(DropLast(hist), e, o, rune);
      HeldSnoc(front, Balance(e.address, e.Amount()), who);
      assert front + [] == front;
    }
  }

  // ----- Gathering the inputs of a transaction -----

  /** Appends the balances of one more input, rune by rune. */
  function Extend(a: map<RuneId, seq<Balance>>, b: map<RuneId, seq<Balance>>): map<RuneId, seq<Balance>> {
    map r | r in a.Keys + b.Keys :: Queue(a, r) + Queue(b, r)
  }

  /** The input queues: the balances of every input, in input order. */
  function Gather(parts: seq<map<RuneId, seq<Balance>>>): map<RuneId, seq<Balance>> {
    if parts == [] then map[] else Extend(Gather(DropLast(parts)), Last(parts))
  }

  /** The balances of one rune at all inputs, the first input first. */
  function InInputOrder(parts: seq<map<RuneId, seq<Balance>>>, rune: RuneId): seq<Balance> {
    if parts == [] then [] else Queue(parts[0], rune) + InInputOrder(parts[1..], rune)
  }

  lemma {:induction false} InputOrderSnoc(parts: seq<map<RuneId, seq<Balance>>>, part: map<RuneId, seq<Balance>>, rune: RuneId)
    ensures InInputOrder(parts + [part], rune) == InInputOrder(parts, rune) + Queue(part, rune)
  {
    var all := parts + [part];
    if parts == [] {
      assert all[1..] == [];
      assert [] + Queue(part, rune) == Queue(part, rune) == Queue(part, rune) + [];
    } else {
      assert all[1..] == parts[1..] + [part];
      InputOrderSnoc(parts[1..], part, rune);
      assert Queue(parts[0], rune) + (InInputOrder(parts[1..], rune) + Queue(part, rune))
          == Queue(parts[0], rune) + InInputOrder(parts[1..], rune) + Queue(part, rune);
    }
  }

  /** The input queues hold the balances of the first input first, whatever the order in which maps are visited. */
  lemma {:induction false} GatherKeepsOrder(parts: seq<map<RuneId, seq<Balance>>>, rune: RuneId)
    ensures Queue(Gather(parts), rune) == InInputOrder(parts, rune)
  {
    hide Queue, Extend;
    if parts == [] {
      NoInputQueue(rune);
    } else {
      GatherKeepsOrder(DropLast(parts), rune);
      InputOrderSnoc(DropLast(parts), Last(parts), rune);
      assert DropLast(parts) + [Last(parts)] == parts;
      ExtendAppends(Gather(DropLast(parts)), Last(parts), rune);
    }
  }

  lemma NoInputQueue(rune: RuneId)
    ensures Queue(map[], rune) == []
  {
  }

  lemma ExtendAppends(a: map<RuneId, seq<Balance>>, b: map<RuneId, seq<Balance>>, rune: RuneId)
    ensures Queue(Extend(a, b), rune) == Queue(a, rune) + Queue(b, rune)
  {
  }

  /** `parts[i]` holds, for every rune, the balances received at the i-th input, in whatever order they were found. */
  ghost predicate IsLookup(hist: seq<Entry>, ins: seq<Outpoint>, parts: seq<map<RuneId, seq<Balance>>>) {
    && |parts| == |ins|
    && forall i, r :: 0 <= i < |ins| ==> IsOneLookup(hist, ins[i], parts[i], r)
  }

  ghost predicate IsOneLookup(hist: seq<Entry>, o: Outpoint, part: map<RuneId, seq<Balance>>, r: RuneId) {
    multiset(Queue(part, r)) == multiset(ReceivesAt(hist, o, r))
  }
}
