/** Tagged fields and the split of a payload into fields and body (crates/ordinals/src/runestone/message.rs, tag.rs). */
module Messages {
  import opened Basics
  import opened Artifacts
  import opened RuneIds

  const TAG_BODY: u128 := 0
  const TAG_FLAGS: u128 := 2
  const TAG_RUNE: u128 := 4
  const TAG_PREMINE: u128 := 6
  const TAG_CAP: u128 := 8
  const TAG_AMOUNT: u128 := 10
  const TAG_HEIGHT_START: u128 := 12
  const TAG_HEIGHT_END: u128 := 14
  const TAG_OFFSET_START: u128 := 16
  const TAG_OFFSET_END: u128 := 18
  const TAG_MINT: u128 := 20
  const TAG_POINTER: u128 := 22
  const TAG_DIVISIBILITY: u128 := 1
  const TAG_SPACERS: u128 := 3
  const TAG_SYMBOL: u128 := 5

  type Pair = (u128, u128)

  type Fields = map<u128, seq<u128>>

  datatype Message = Message(flaw: Option<Flaw>, edicts: seq<Edict>, fields: Fields)

  // ----- The shape of a payload -----

  /** The pairs in front, and what comes behind them: a body, half a pair, or nothing. */
  datatype Scan = Scan(pairs: seq<Pair>, body: Option<seq<u128>>, truncated: bool)

  function ScanOf(payload: seq<u128>): Scan
    decreases |payload|
  {
    if payload == [] then Scan([], None, false)
    else if payload[0] == TAG_BODY then Scan([], Some(payload[1..]), false)
    else if |payload| == 1 then Scan([], None, true)
    else
      var s := ScanOf(payload[2..]);
      Scan([(payload[0], payload[1])] + s.pairs, s.body, s.truncated)
  }

  /** The values given for one tag, in order. */
  function TagQueue(pairs: seq<Pair>, tag: u128): seq<u128> {
    if pairs == [] then [] else TagQueue(DropLast(pairs), tag) + if Last(pairs).0 == tag then [Last(pairs).1] else []
  }

  function Values(fields: Fields, tag: u128): seq<u128> {
    if tag in fields then fields[tag] else []
  }

  function Push(fields: Fields, tag: u128, value: u128): Fields {
    fields[tag := Values(fields, tag) + [value]]
  }

  function FieldsOf(pairs: seq<Pair>): Fields {
    if pairs == [] then map[] else Push(FieldsOf(DropLast(pairs)), Last(pairs).0, Last(pairs).1)
  }

  /** No tag has an empty queue. */
  ghost predicate Tidy(fields: Fields) {
    forall t :: t in fields ==> fields[t] != []
  }

  lemma {:induction false} FieldsAreQueues(pairs: seq<Pair>, tag: u128)
    ensures Values(FieldsOf(pairs), tag) == TagQueue(pairs, tag)
    ensures Tidy(FieldsOf(pairs))
  {
    if pairs != [] {
      FieldsAreQueues(DropLast(pairs), tag);
    }
  }

  /** The map of fields holds nothing but the queues. */
  lemma SameQueuesSameFields(p: seq<Pair>, q: seq<Pair>)
    requires forall t :: TagQueue(p, t) == TagQueue(q, t)
    ensures FieldsOf(p) == FieldsOf(q)
  {
    hide FieldsOf, TagQueue;
    forall t: u128 ensures (t in FieldsOf(p) <==> t in FieldsOf(q)) && Values(FieldsOf(p), t) == Values(FieldsOf(q), t) {
      FieldsAreQueues(p, t);
      FieldsAreQueues(q, t);
      assert TagQueue(p, t) == TagQueue(q, t);
    }
    forall t | t in FieldsOf(p) ensures FieldsOf(p)[t] == FieldsOf(q)[t] {
      assert Values(FieldsOf(p), t) == Values(FieldsOf(q), t);
    }
  }

  lemma {:induction false} QueueAppend(p: seq<Pair>, q: seq<Pair>, tag: u128)
    ensures TagQueue(p + q, tag) == TagQueue(p, tag) + TagQueue(q, tag)
  {
    if q == [] {
      assert p + q == p;
    } else {
      assert DropLast(p + q) == p + DropLast(q);
      QueueAppend(p, DropLast(q), tag);
    }
  }

  lemma QueueOne(pair: Pair, tag: u128)
    ensures TagQueue([pair], tag) == if pair.0 == tag then [pair.1] else []
  {
    assert DropLast([pair]) == [];
  }

  function FirstFlaw(flaw: Option<Flaw>, other: Option<Flaw>): Option<Flaw> {
    if flaw.Some? then flaw else other
  }

  function MessageOf(outputs: u32, payload: seq<u128>): Message {
    var s := ScanOf(payload);
    var body := if s.body.Some? then ReadEdicts(outputs, SELF_ID, s.body.value) else ReadBody([], None);
    Message(if s.truncated then Some(TruncatedField) else body.flaw, body.edicts, FieldsOf(s.pairs))
  }

  // ----- The loops -----

  lemma PushSnoc(pairs: seq<Pair>, pair: Pair)
    ensures FieldsOf(pairs + [pair]) == Push(FieldsOf(pairs), pair.0, pair.1)
  {
    assert DropLast(pairs + [pair]) == pairs;
  }

  /** The loop over the body, four integers at a time. */
  method EdictsFromIntegers(outputs: u32, body: seq<u128>) returns (edicts: seq<Edict>, flaw: Option<Flaw>)
    ensures ReadBody(edicts, flaw) == ReadEdicts(outputs, SELF_ID, body)
  {
    edicts, flaw := [], None;
    var id := SELF_ID;
    var j := 0;
    ghost var goal := ReadEdicts(outputs, SELF_ID, body);
    assert body[0..] == body && [] + goal.edicts == goal.edicts;
    while j < |body|
      invariant j <= |body|
      invariant goal == ReadBody(edicts + ReadEdicts(outputs, id, body[j..]).edicts, ReadEdicts(outputs, id, body[j..]).flaw)
    {
      var chunk := body[j..Min(j + 4, |body|)];
      assert edicts + [] == edicts;
      if |chunk| != 4 {
        flaw := Some(TrailingIntegers);
        return;
      }
      assert body[j..][0] == chunk[0] && body[j..][1] == chunk[1] && body[j..][2] == chunk[2] && body[j..][3] == chunk[3];
      assert body[j..][4..] == body[j + 4..];
      var next := Next(id, chunk[0], chunk[1]);
      if next.None? {
        flaw := Some(EdictRuneId);
        return;
      }
      var edict := FromIntegers(outputs, next.value, chunk[2], chunk[3]);
      if edict.None? {
        flaw := Some(EdictOutput);
        return;
      }
      ghost var rest := ReadEdicts(outputs, next.value, body[j + 4..]);
      assert edicts + ([edict.value] + rest.edicts) == (edicts + [edict.value]) + rest.edicts;
      id := next.value;
      edicts := edicts + [edict.value];
      j := j + 4;
    }
    assert body[j..] == [] && edicts + [] == edicts;
  }

  /** A scan continued behind pairs already read. */
  function Behind(pairs: seq<Pair>, s: Scan): Scan {
    Scan(pairs + s.pairs, s.body, s.truncated)
  }

  lemma BehindStep(pairs: seq<Pair>, payload: seq<u128>, i: nat)
    requires i < |payload| && payload[i] != TAG_BODY && i + 1 < |payload|
    ensures Behind(pairs, ScanOf(payload[i..])) == Behind(pairs + [(payload[i], payload[i + 1])], ScanOf(payload[i + 2..]))
  {
    var rest := payload[i..];
    var s := ScanOf(payload[i + 2..]);
    assert rest[0] == payload[i] && rest[1] == payload[i + 1] && rest[2..] == payload[i + 2..];
    assert pairs + ([(rest[0], rest[1])] + s.pairs) == (pairs + [(rest[0], rest[1])]) + s.pairs;
  }

  lemma BehindStop(pairs: seq<Pair>, payload: seq<u128>, i: nat)
    requires i <= |payload|
    ensures i == |payload| ==> Behind(pairs, ScanOf(payload[i..])) == Scan(pairs, None, false)
    ensures i < |payload| && payload[i] == TAG_BODY ==>
              Behind(pairs, ScanOf(payload[i..])) == Scan(pairs, Some(payload[i + 1..]), false)
    ensures i + 1 == |payload| && payload[i] != TAG_BODY ==> Behind(pairs, ScanOf(payload[i..])) == Scan(pairs, None, true)
  {
    assert pairs + [] == pairs;
    if i < |payload| {
      assert payload[i..][1..] == payload[i + 1..];
    }
  }

  lemma BehindStart(s: Scan)
    ensures Behind([], s) == s && FieldsOf([]) == map[]
  {
    assert [] + s.pairs == s.pairs;
  }

  method FromPayload(outputs: u32, payload: seq<u128>) returns (m: Message)
    ensures m == MessageOf(outputs, payload)
  {
    hide ScanOf, FieldsOf, ReadEdicts, Behind, Push;
    ghost var goal := ScanOf(payload);
    var edicts: seq<Edict>, fields: Fields, flaw: Option<Flaw> := [], map[], None;
    ghost var pairs: seq<Pair> := [];
    var i := 0;
    BehindStart(goal);
    assert payload[0..] == payload;
    while i < |payload|
      invariant i <= |payload|
      invariant fields == FieldsOf(pairs) && edicts == [] && flaw == None
      invariant goal == Behind(pairs, ScanOf(payload[i..]))
    {
      BehindStop(pairs, payload, i);
      var tag := payload[i];
      if tag == TAG_BODY {
        edicts, flaw := EdictsFromIntegers(outputs, payload[i + 1..]);
        return Message(flaw, edicts, fields);
      }
      if i + 1 == |payload| {
        flaw := Some(TruncatedField);
        return Message(flaw, edicts, fields);
      }
      BehindStep(pairs, payload, i);
      PushSnoc(pairs, (tag, payload[i + 1]));
      pairs := pairs + [(tag, payload[i + 1])];
      fields := Push(fields, tag, payload[i + 1]);
      i := i + 2;
    }
    BehindStop(pairs, payload, i);
    return Message(flaw, edicts, fields);
  }

  /** Removes the first `n` values of a tag, and the tag when nothing is left of it. */
  function Drain(fields: Fields, tag: u128, n: nat): Fields
    requires n <= |Values(fields, tag)|
  {
    if |Values(fields, tag)| == n then map t | t in fields && t != tag :: fields[t]
    else fields[tag := Values(fields, tag)[n..]]
  }

  /** `fields'` is `fields` without the first `n` values of one tag. */
  ghost predicate TookValues(fields: Fields, fields': Fields, tag: u128, n: nat) {
    && Tidy(fields')
    && n <= |Values(fields, tag)|
    && forall t :: Values(fields', t) == if t == tag then Values(fields, t)[n..] else Values(fields, t)
  }

  function Read<T>(fields: Fields, tag: u128, with: u128 -> Option<T>): Option<T> {
    if Values(fields, tag) == [] then None else with(Values(fields, tag)[0])
  }

  function ReadTwo<T>(fields: Fields, tag: u128, with: (u128, u128) -> Option<T>): Option<T> {
    if |Values(fields, tag)| < 2 then None else with(Values(fields, tag)[0], Values(fields, tag)[1])
  }

  /** Takes one value, if there is one and the conversion accepts it; otherwise changes nothing. */
  method Take<T>(tag: u128, fields: Fields, with: u128 -> Option<T>) returns (value: Option<T>, fields': Fields)
    requires Tidy(fields)
    ensures value == Read(fields, tag, with)
    ensures TookValues(fields, fields', tag, if value.Some? then 1 else 0)
  {
    fields' := fields;
    if tag !in fields {
      return None, fields';
    }
    value := with(fields[tag][0]);
    if value.Some? {
      fields' := Drain(fields, tag, 1);
    }
  }

  /** The same for a field of two values. */
  method TakeTwo<T>(tag: u128, fields: Fields, with: (u128, u128) -> Option<T>) returns (value: Option<T>, fields': Fields)
    requires Tidy(fields)
    ensures value == ReadTwo(fields, tag, with)
    ensures TookValues(fields, fields', tag, if value.Some? then 2 else 0)
  {
    fields' := fields;
    if tag !in fields || |fields[tag]| < 2 {
      return None, fields';
    }
    value := with(fields[tag][0], fields[tag][1]);
    if value.Some? {
      fields' := Drain(fields, tag, 2);
    }
  }

  // ----- Writing -----

  /** Pairs as integers. */
  function Flatten(pairs: seq<Pair>): seq<u128> {
    if pairs == [] then [] else [pairs[0].0, pairs[0].1] + Flatten(pairs[1..])
  }

  lemma {:induction false} FlattenAppend(p: seq<Pair>, q: seq<Pair>)
    ensures Flatten(p + q) == Flatten(p) + Flatten(q)
  {
    if p == [] {
      assert p + q == q;
    } else {
      assert (p + q)[0] == p[0] && (p + q)[1..] == p[1..] + q;
      FlattenAppend(p[1..], q);
    }
  }

  ghost predicate NoBodyTag(pairs: seq<Pair>) {
    forall p :: p in pairs ==> p.0 != TAG_BODY
  }

  lemma ScanPair(pair: Pair, rest: seq<u128>)
    requires pair.0 != TAG_BODY
    ensures ScanOf([pair.0, pair.1] + rest) == Behind([pair], ScanOf(rest))
  {
    assert ([pair.0, pair.1] + rest)[2..] == rest;
  }

  lemma BehindTwice(p: seq<Pair>, q: seq<Pair>, s: Scan)
    ensures Behind(p, Behind(q, s)) == Behind(p + q, s)
  {
    assert p + (q + s.pairs) == (p + q) + s.pairs;
  }

  /** The scan finds the pairs that were written, and behind them what follows. */
  lemma {:induction false} ScanWritten(pairs: seq<Pair>, tail: seq<u128>)
    requires NoBodyTag(pairs)
    ensures ScanOf(Flatten(pairs) + tail) == Behind(pairs, ScanOf(tail))
  {
    hide ScanOf, Behind;
    if pairs == [] {
      assert Flatten(pairs) + tail == tail;
      BehindStart(ScanOf(tail));
    } else {
      assert pairs[0] in pairs;
      assert Flatten(pairs) + tail == [pairs[0].0, pairs[0].1] + (Flatten(pairs[1..]) + tail);
      ScanPair(pairs[0], Flatten(pairs[1..]) + tail);
      ScanWritten(pairs[1..], tail);
      BehindTwice([pairs[0]], pairs[1..], ScanOf(tail));
      assert pairs == [pairs[0]] + pairs[1..];
    }
  }

  /** A payload is its pairs followed by its tail: nothing is lost in the scan. */
  lemma {:induction false} ScanLosesNothing(payload: seq<u128>)
    ensures var s := ScanOf(payload);
            && NoBodyTag(s.pairs)
            && (s.body.Some? ==> payload == Flatten(s.pairs) + [TAG_BODY] + s.body.value)
            && (s.body.None? && !s.truncated ==> payload == Flatten(s.pairs))
            && (s.truncated ==> s.body.None? && |payload| == |Flatten(s.pairs)| + 1 && payload[..|payload| - 1] == Flatten(s.pairs))
    decreases |payload|
  {
    if payload != [] && payload[0] != TAG_BODY && |payload| > 1 {
      var s := ScanOf(payload[2..]);
      ScanLosesNothing(payload[2..]);
      assert payload == [payload[0], payload[1]] + payload[2..];
      assert ([(payload[0], payload[1])] + s.pairs)[1..] == s.pairs;
      if s.truncated {
        assert payload[..|payload| - 1] == [payload[0], payload[1]] + payload[2..][..|payload| - 3];
      }
    }
  }

  // ----- Only the queues and the body matter -----

  /** Fields written in any order that keeps the values of each tag in order read the same. */
  lemma MessageDependsOnQueues(outputs: u32, p: seq<Pair>, q: seq<Pair>, tail: seq<u128>)
    requires NoBodyTag(p) && NoBodyTag(q)
    requires forall t :: TagQueue(p, t) == TagQueue(q, t)
    requires ScanOf(tail).pairs == []
    ensures MessageOf(outputs, Flatten(p) + tail) == MessageOf(outputs, Flatten(q) + tail)
  {
    hide ScanOf, Flatten, FieldsOf, TagQueue, ReadEdicts;
    ScanWritten(p, tail);
    ScanWritten(q, tail);
    assert p + [] == p && q + [] == q;
    SameQueuesSameFields(p, q);
  }

  /** Two neighbouring pairs with different tags can change places. */
  lemma PairsCommute(outputs: u32, a: seq<Pair>, x: Pair, y: Pair, b: seq<Pair>, tail: seq<u128>)
    requires NoBodyTag(a + [x, y] + b) && x.0 != y.0 && ScanOf(tail).pairs == []
    ensures MessageOf(outputs, Flatten(a + [x, y] + b) + tail) == MessageOf(outputs, Flatten(a + [y, x] + b) + tail)
  {
    hide ScanOf, Flatten, MessageOf;
    forall t ensures TagQueue(a + [x, y] + b, t) == TagQueue(a + [y, x] + b, t) {
      QueueOfTwo(a, x, y, b, t);
      QueueOfTwo(a, y, x, b, t);
    }
    assert forall p :: p in a + [y, x] + b ==> p in a + [x, y] + b;
    MessageDependsOnQueues(outputs, a + [x, y] + b, a + [y, x] + b, tail);
  }

  lemma QueueOfTwo(a: seq<Pair>, x: Pair, y: Pair, b: seq<Pair>, t: u128)
    ensures TagQueue(a + [x, y] + b, t) ==
            TagQueue(a, t) + (if x.0 == t then [x.1] else []) + (if y.0 == t then [y.1] else []) + TagQueue(b, t)
  {
    hide TagQueue;
    assert a + [x, y] + b == ((a + [x]) + [y]) + b;
    QueueAppend((a + [x]) + [y], b, t);
    QueueAppend(a + [x], [y], t);
    QueueAppend(a, [x], t);
    QueueOne(x, t);
    QueueOne(y, t);
  }
}
