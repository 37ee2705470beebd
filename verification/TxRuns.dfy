/** What one transaction makes the machine do, in the order of src/db/index.rs:109-146. */
module TxRuns {
  import opened Basics
  import opened Artifacts
  import opened Transactions
  import opened Outputs
  import opened Machine

  /** The actions of one transaction. */
  datatype TxRun = TxRun(begin: Action, head: seq<Action>, etch: seq<Action>, mint: seq<Action>, edicts: seq<Action>, end: Action) {
    function All(): seq<Action> { [begin] + head + etch + mint + edicts + [end] }
  }

  /** The actions of several transactions. */
  function Flat(runs: seq<TxRun>): seq<Action> {
    if runs == [] then [] else Flat(DropLast(runs)) + Last(runs).All()
  }

  /** The action a mint comes to: the rune is found, or it is not. */
  predicate IsMintAttempt(a: Action, rune: RuneId, cenotaph: bool) {
    || a == SkipMint(rune)
    || (if cenotaph then a.DoMintInCenotaph? && a.rune == rune else a.DoMint? && a.rune == rune)
  }

  predicate IsEdictAttempt(a: Action, edict: Edict) {
    a == DoEdict(edict) || a == SkipEdict(edict)
  }

  ghost predicate IsMintOf(acts: seq<Action>, mint: Option<RuneId>, cenotaph: bool) {
    if mint.None? then acts == []
    else
      |acts| == 1 && IsMintAttempt(acts[0], mint.value, cenotaph)
  }

  ghost predicate AreEdicts(acts: seq<Action>, edicts: seq<Edict>) {
    |acts| == |edicts| && forall i :: 0 <= i < |acts| ==> IsEdictAttempt(acts[i], edicts[i])
  }

  /** Begin; a pointer or a burn; an etching; a mint; edicts; end. */
  ghost predicate Shaped(r: TxRun) {
    && r.begin.Begin? && r.end.DoEnd?
    && (r.head == [] || (|r.head| == 1 && (r.head[0].SetPointer? || r.head[0].DoBurnInputs?)))
    && (r.etch == [] || (|r.etch| == 1 && (r.etch[0].DoEtch? || r.etch[0].DoEtchCenotaph?)))
    && (r.mint == [] || (|r.mint| == 1 && (r.mint[0].DoMint? || r.mint[0].DoMintInCenotaph? || r.mint[0].SkipMint?)))
    && forall a :: a in r.edicts ==> a.DoEdict? || a.SkipEdict?
  }

  lemma {:induction false} RunAppend(s: State, a: seq<Action>, b: seq<Action>)
    ensures RunFrom(s, a + b) == RunFrom(RunFrom(s, a), b)
    ensures Legal(s, a + b) <==> Legal(s, a) && Legal(RunFrom(s, a), b)
  {
    hide Apply, Enabled;
    if b == [] {
      assert a + b == a;
    } else {
      assert DropLast(a + b) == a + DropLast(b);
      RunAppend(s, a, DropLast(b));
    }
  }

  lemma RunOne(s: State, a: Action)
    ensures RunFrom(s, [a]) == Apply(s, a)
    ensures Legal(s, [a]) <==> Enabled(s, a)
  {
    hide Apply, Enabled;
    assert DropLast([a]) == [];
  }

  lemma LegalAppend(s: State, actions: seq<Action>, a: Action)
    requires Legal(s, actions) && Enabled(RunFrom(s, actions), a)
    ensures Legal(s, actions + [a]) && RunFrom(s, actions + [a]) == Apply(RunFrom(s, actions), a)
  {
    hide Enabled, Apply;
    assert DropLast(actions + [a]) == actions;
  }

  lemma {:induction false} LegalPrefix(s: State, actions: seq<Action>, i: nat)
    requires Legal(s, actions) && i < |actions|
    ensures Legal(s, actions[..i]) && Enabled(RunFrom(s, actions[..i]), actions[i])
    ensures RunFrom(s, actions[..i + 1]) == Apply(RunFrom(s, actions[..i]), actions[i])
    decreases |actions|
  {
    hide Enabled, Apply;
    if i + 1 == |actions| {
      assert actions[..i] == DropLast(actions) && actions[..i + 1] == actions;
    } else {
      assert DropLast(actions)[..i] == actions[..i] && DropLast(actions)[..i + 1] == actions[..i + 1];
      LegalPrefix(s, DropLast(actions), i);
    }
  }

  lemma RunesStay(s: State, a: Action, rune: RuneId)
    requires rune in s.runes && Enabled(s, a)
    ensures rune in Apply(s, a).runes && Apply(s, a).runes[rune] == s.runes[rune]
  {
    hide StepOf, Gather, IsLookup;
  }
}
