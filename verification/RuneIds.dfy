/** Rune ids, their differences, and edicts in id order (crates/ordinals/src/rune_id.rs:21-54, edict.rs:10-24,
    runestone.rs:169-184). */
module RuneIds {
  import opened Basics
  import opened Artifacts

  function New(block: u64, tx: u32): Option<RuneId> {
    if block == 0 && tx > 0 then None else Some(RuneId(block, tx))
  }

  predicate ValidId(id: RuneId) {
    id.block == 0 ==> id.tx == 0
  }

  predicate AtMost(a: RuneId, b: RuneId) {
    a.block < b.block || (a.block == b.block && a.tx <= b.tx)
  }

  function Delta(from: RuneId, next: RuneId): Option<(u128, u128)> {
    if next.block < from.block then None
    else if next.block > from.block then Some((next.block - from.block, next.tx))
    else if next.tx < from.tx then None
    else Some((0, next.tx - from.tx))
  }

  function Next(from: RuneId, block: u128, tx: u128): Option<RuneId> {
    if block > U64_MAX || from.block + block > U64_MAX || tx > U32_MAX then None
    else if block > 0 then New(from.block + block, tx)
    else if from.tx + tx > U32_MAX then None
    else New(from.block, from.tx + tx)
  }

  // ----- Stable sorting by id -----

  predicate AscendingIds(edicts: seq<Edict>) {
    forall i, j :: 0 <= i < j < |edicts| ==> AtMost(edicts[i].id, edicts[j].id)
  }

  function WithId(edicts: seq<Edict>, id: RuneId): seq<Edict> {
    if edicts == [] then []
    else WithId(DropLast(edicts), id) + if Last(edicts).id == id then [Last(edicts)] else []
  }

  /** Puts an edict behind all those with an id at most its own. */
  function Insert(edicts: seq<Edict>, e: Edict): (r: seq<Edict>)
    ensures |r| == |edicts| + 1
  {
    if edicts == [] || AtMost(Last(edicts).id, e.id) then edicts + [e]
    else Insert(DropLast(edicts), e) + [Last(edicts)]
  }

  function SortById(edicts: seq<Edict>): seq<Edict> {
    if edicts == [] then [] else Insert(SortById(DropLast(edicts)), Last(edicts))
  }

  lemma WithIdSnoc(edicts: seq<Edict>, e: Edict, id: RuneId)
    ensures WithId(edicts + [e], id) == WithId(edicts, id) + if e.id == id then [e] else []
  {
    assert DropLast(edicts + [e]) == edicts;
  }

  lemma {:induction false} InsertAdds(edicts: seq<Edict>, e: Edict)
    ensures forall x :: x in Insert(edicts, e) <==> x in edicts || x == e
  {
    if edicts != [] && !AtMost(Last(edicts).id, e.id) {
      InsertAdds(DropLast(edicts), e);
      assert edicts == DropLast(edicts) + [Last(edicts)];
    }
  }

  lemma AscendingSnoc(edicts: seq<Edict>, e: Edict)
    requires AscendingIds(edicts) && forall x :: x in edicts ==> AtMost(x.id, e.id)
    ensures AscendingIds(edicts + [e])
  {
  }

  lemma LastIsLargest(edicts: seq<Edict>, x: Edict)
    requires edicts != [] && AscendingIds(edicts) && x in edicts
    ensures AtMost(x.id, Last(edicts).id)
  {
    var i :| 0 <= i < |edicts| && edicts[i] == x;
  }

  lemma {:induction false} InsertKeepsOrder(edicts: seq<Edict>, e: Edict)
    requires AscendingIds(edicts)
    ensures AscendingIds(Insert(edicts, e))
  {
    hide AscendingIds;
    if edicts == [] {
      AscendingOne(e);
    } else if AtMost(Last(edicts).id, e.id) {
      forall x | x in edicts ensures AtMost(x.id, e.id) {
        LastIsLargest(edicts, x);
      }
      AscendingSnoc(edicts, e);
    } else {
      AscendingFront(edicts);
      InsertKeepsOrder(DropLast(edicts), e);
      InsertAdds(DropLast(edicts), e);
      forall x | x in Insert(DropLast(edicts), e) ensures AtMost(x.id, Last(edicts).id) {
        if x != e {
          LastIsLargest(edicts, x);
        }
      }
      AscendingSnoc(Insert(DropLast(edicts), e), Last(edicts));
    }
  }

  lemma AscendingOne(e: Edict)
    ensures AscendingIds([] + [e])
  {
  }

  lemma AscendingFront(edicts: seq<Edict>)
    requires edicts != [] && AscendingIds(edicts)
    ensures AscendingIds(DropLast(edicts))
  {
  }

  lemma {:induction false} InsertIsStable(edicts: seq<Edict>, e: Edict, id: RuneId)
    requires AscendingIds(edicts)
    ensures WithId(Insert(edicts, e), id) == WithId(edicts + [e], id)
  {
    WithIdSnoc(edicts, e, id);
    if edicts != [] && !AtMost(Last(edicts).id, e.id) {
      InsertIsStable(DropLast(edicts), e, id);
      WithIdSnoc(DropLast(edicts), e, id);
      WithIdSnoc(Insert(DropLast(edicts), e), Last(edicts), id);
    }
  }

  /** Sorting orders by id and keeps, for every id, its edicts in their order. */
  lemma {:induction false} SortIsStable(edicts: seq<Edict>, id: RuneId)
    ensures AscendingIds(SortById(edicts))
    ensures WithId(SortById(edicts), id) == WithId(edicts, id)
    ensures forall x :: x in SortById(edicts) <==> x in edicts
  {
    if edicts != [] {
      var front := SortById(DropLast(edicts));
      SortIsStable(DropLast(edicts), id);
      InsertKeepsOrder(front, Last(edicts));
      InsertAdds(front, Last(edicts));
      InsertIsStable(front, Last(edicts), id);
      WithIdSnoc(front, Last(edicts), id);
      assert edicts == DropLast(edicts) + [Last(edicts)];
    }
  }

  lemma {:induction false} WithIdMember(edicts: seq<Edict>, id: RuneId)
    ensures WithId(edicts, id) != [] <==> exists e :: e in edicts && e.id == id
  {
    if edicts != [] {
      WithIdMember(DropLast(edicts), id);
      assert edicts == DropLast(edicts) + [Last(edicts)];
    }
  }

  lemma LastIsGreatest(s: seq<Edict>, t: seq<Edict>)
    requires s != [] && t != [] && AscendingIds(s)
    requires forall id :: WithId(s, id) == WithId(t, id)
    ensures AtMost(Last(t).id, Last(s).id)
  {
    var id := Last(t).id;
    WithIdMember(s, id);
    WithIdMember(t, id);
    assert Last(t) in t && WithId(s, id) == WithId(t, id);
    var e :| e in s && e.id == id;
    var i :| 0 <= i < |s| && s[i] == e;
  }

  lemma SameWithIdSameEmptiness(s: seq<Edict>, t: seq<Edict>)
    requires forall id :: WithId(s, id) == WithId(t, id)
    ensures s != [] ==> t != []
  {
    if s != [] {
      var id := Last(s).id;
      WithIdMember(s, id);
      assert Last(s) in s && WithId(s, id) == WithId(t, id);
    }
  }

  /** There is only one such ordering, so any stable sort gives it. */
  lemma {:induction false} StableSortIsUnique(s: seq<Edict>, t: seq<Edict>)
    requires AscendingIds(s) && AscendingIds(t)
    requires forall id :: WithId(s, id) == WithId(t, id)
    ensures s == t
  {
    SameWithIdSameEmptiness(s, t);
    SameWithIdSameEmptiness(t, s);
    if s != [] {
      LastIsGreatest(s, t);
      LastIsGreatest(t, s);
      var id := Last(s).id;
      assert WithId(s, id) == WithId(t, id);
      assert Last(WithId(s, id)) == Last(s) && Last(WithId(t, id)) == Last(t);
      forall id' ensures WithId(DropLast(s), id') == WithId(DropLast(t), id') {
        assert WithId(s, id') == WithId(t, id');
        SnocCancels(WithId(DropLast(s), id'), WithId(DropLast(t), id'), Last(s));
      }
      StableSortIsUnique(DropLast(s), DropLast(t));
      assert s == DropLast(s) + [Last(s)] && t == DropLast(t) + [Last(t)];
    }
  }

  lemma SnocCancels(a: seq<Edict>, b: seq<Edict>, e: Edict)
    ensures a + [e] == b + [e] ==> a == b
    ensures a + [] == b + [] ==> a == b
  {
    assert DropLast(a + [e]) == a && DropLast(b + [e]) == b;
    assert a + [] == a && b + [] == b;
  }

  lemma SortedStays(edicts: seq<Edict>)
    requires AscendingIds(edicts)
    ensures SortById(edicts) == edicts
  {
    forall id ensures WithId(SortById(edicts), id) == WithId(edicts, id) && AscendingIds(SortById(edicts)) {
      SortIsStable(edicts, id);
    }
    SortIsStable(edicts, SELF_ID);
    StableSortIsUnique(SortById(edicts), edicts);
  }

  // ----- The body of a message -----

  predicate AscendingFrom(previous: RuneId, edicts: seq<Edict>)
    decreases |edicts|
  {
    edicts == [] || (AtMost(previous, edicts[0].id) && AscendingFrom(edicts[0].id, edicts[1..]))
  }

  /** Edicts as integers: id relative to the edict before, amount, output. */
  function BodyOf(previous: RuneId, edicts: seq<Edict>): seq<u128>
    requires AscendingFrom(previous, edicts)
    decreases |edicts|
  {
    if edicts == [] then []
    else
      var d := Delta(previous, edicts[0].id).value;
      [d.0, d.1, edicts[0].amount, edicts[0].output] + BodyOf(edicts[0].id, edicts[1..])
  }

  function FromIntegers(outputs: u32, id: RuneId, amount: u128, output: u128): Option<Edict> {
    if output > U32_MAX || output > outputs then None else Some(Edict(id, amount, output))
  }

  datatype ReadBody = ReadBody(edicts: seq<Edict>, flaw: Option<Flaw>)

  /** The edicts up to the first flaw, and that flaw. */
  function ReadEdicts(outputs: u32, previous: RuneId, body: seq<u128>): ReadBody
    decreases |body|
  {
    if body == [] then ReadBody([], None)
    else if |body| < 4 then ReadBody([], Some(TrailingIntegers))
    else
      match Next(previous, body[0], body[1])
      case None => ReadBody([], Some(EdictRuneId))
      case Some(id) =>
        match FromIntegers(outputs, id, body[2], body[3])
        case None => ReadBody([], Some(EdictOutput))
        case Some(e) =>
          var r := ReadEdicts(outputs, id, body[4..]);
          ReadBody([e] + r.edicts, r.flaw)
  }

  predicate EdictFits(outputs: u32, e: Edict) {
    ValidId(e.id) && e.output <= outputs
  }

  /** From one id a later one is reached by their difference, and by no other. */
  lemma DeltaInvertsNext(from: RuneId, next: RuneId, block: u128, tx: u128)
    ensures Delta(from, next).Some? <==> AtMost(from, next)
    ensures AtMost(from, next) ==> Next(from, Delta(from, next).value.0, Delta(from, next).value.1) == New(next.block, next.tx)
    ensures Next(from, block, tx) == Some(next) ==> ValidId(next) && Delta(from, next) == Some((block, tx))
  {
  }

  lemma {:induction false} AscendingChain(previous: RuneId, edicts: seq<Edict>)
    requires AscendingIds(edicts) && (edicts != [] ==> AtMost(previous, edicts[0].id))
    ensures AscendingFrom(previous, edicts)
    decreases |edicts|
  {
    if |edicts| > 1 {
      AscendingChain(edicts[0].id, edicts[1..]);
    }
  }

  lemma {:induction false} ChainAscends(previous: RuneId, edicts: seq<Edict>)
    requires AscendingFrom(previous, edicts)
    ensures AscendingIds(edicts) && forall e :: e in edicts ==> AtMost(previous, e.id)
    decreases |edicts|
  {
    if edicts != [] {
      ChainAscends(edicts[0].id, edicts[1..]);
      assert edicts == [edicts[0]] + edicts[1..];
      forall i, j | 0 <= i < j < |edicts| ensures AtMost(edicts[i].id, edicts[j].id) {
        assert edicts[j] == edicts[1..][j - 1];
        if i > 0 {
          assert edicts[i] == edicts[1..][i - 1];
        }
      }
    }
  }

  /** The differences of sorted edicts always exist. */
  lemma SortedChain(edicts: seq<Edict>)
    ensures AscendingFrom(SELF_ID, SortById(edicts))
  {
    hide SortById, AscendingFrom, WithId;
    SortIsStable(edicts, SELF_ID);
    AscendingChain(SELF_ID, SortById(edicts));
  }

  /** Reading what was written gives the edicts back, exactly when each of them is acceptable. */
  lemma {:induction false} ReadWrittenEdicts(outputs: u32, previous: RuneId, edicts: seq<Edict>)
    requires AscendingFrom(previous, edicts)
    ensures ReadEdicts(outputs, previous, BodyOf(previous, edicts)).flaw == None <==> forall e :: e in edicts ==> EdictFits(outputs, e)
    ensures (forall e :: e in edicts ==> EdictFits(outputs, e)) ==>
              ReadEdicts(outputs, previous, BodyOf(previous, edicts)) == ReadBody(edicts, None)
    decreases |edicts|
  {
    if edicts != [] {
      var e := edicts[0];
      var body := BodyOf(previous, edicts);
      DeltaInvertsNext(previous, e.id, 0, 0);
      assert body[4..] == BodyOf(e.id, edicts[1..]);
      ReadWrittenEdicts(outputs, e.id, edicts[1..]);
      assert edicts == [e] + edicts[1..];
      assert |body| >= 4 && Next(previous, body[0], body[1]) == New(e.id.block, e.id.tx);
      if !EdictFits(outputs, e) {
        assert e in edicts;
        assert ReadEdicts(outputs, previous, body).flaw.Some?;
      }
    }
  }

  /** Whatever the integers, the edicts read are acceptable and in order, and a body read without a flaw is what
      writing them gives. */
  lemma {:induction false} WriteReadEdicts(outputs: u32, previous: RuneId, body: seq<u128>)
    ensures var r := ReadEdicts(outputs, previous, body);
            && AscendingFrom(previous, r.edicts)
            && (forall e :: e in r.edicts ==> EdictFits(outputs, e))
            && (r.flaw == None ==> BodyOf(previous, r.edicts) == body)
    decreases |body|
  {
    var r := ReadEdicts(outputs, previous, body);
    if r.edicts != [] {
      var id := Next(previous, body[0], body[1]).value;
      DeltaInvertsNext(previous, id, body[0], body[1]);
      WriteReadEdicts(outputs, id, body[4..]);
      assert r.edicts[1..] == ReadEdicts(outputs, id, body[4..]).edicts;
      if r.flaw == None {
        assert body == [body[0], body[1], body[2], body[3]] + body[4..];
      }
    }
  }
}
