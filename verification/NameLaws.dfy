/** Names belong to the rune that is etched under them first (src/db/mod.rs:83-140, src/db/index.rs:113-131): the table stores
    no other, although the index goes on with any. */
module NameLaws {
  import opened Basics
  import opened Artifacts
  import opened Transactions
  import opened Outputs
  import opened Machine
  import opened TxRuns

  /** Some rune that was not late has the name. */
  ghost predicate HasHolder(runes: map<RuneId, DbRune>, late: set<RuneId>, name: u128) {
    exists r :: r in runes && r !in late && runes[r].name == name
  }

  ghost predicate AllHaveHolders(runes: map<RuneId, DbRune>, late: set<RuneId>) {
    forall r :: r in runes ==> HasHolder(runes, late, runes[r].name)
  }

  lemma HolderStays(runes: map<RuneId, DbRune>, late: set<RuneId>, rune: DbRune)
    requires rune.id !in runes && late <= runes.Keys && AllHaveHolders(runes, late)
    ensures AllHaveHolders(runes[rune.id := rune], if HasName(runes, rune.name) then late + {rune.id} else late)
  {
    var runes' := runes[rune.id := rune];
    var late' := if HasName(runes, rune.name) then late + {rune.id} else late;
    forall r | r in runes' ensures HasHolder(runes', late', runes'[r].name) {
      var name := runes'[r].name;
      if HasName(runes, name) {
        NameHasHolder(runes, late, name);
        var h :| h in runes && h !in late && runes[h].name == name;
        assert h in runes' && h !in late' && runes'[h].name == name;
      } else {
        assert r !in runes;
        assert rune.id in runes' && rune.id !in late' && runes'[rune.id].name == name;
      }
    }
  }

  lemma NameHasHolder(runes: map<RuneId, DbRune>, late: set<RuneId>, name: u128)
    requires HasName(runes, name) && AllHaveHolders(runes, late)
    ensures HasHolder(runes, late, name)
  {
    var r :| r in runes && runes[r].name == name;
    assert HasHolder(runes, late, runes[r].name);
  }

  /** No name has two runes that were not late. */
  ghost predicate OneHolderEach(runes: map<RuneId, DbRune>, late: set<RuneId>) {
    forall a, b :: a in runes && b in runes && a !in late && b !in late && runes[a].name == runes[b].name ==> a == b
  }

  /** What names are like in every run. */
  ghost predicate NamesHeld(s: State) {
    s.late <= s.runes.Keys && AllHaveHolders(s.runes, s.late)
  }

  /** An action that etches this rune. */
  ghost predicate Etches(s: State, a: Action, rune: DbRune) {
    || (a.DoEtch? && rune == FromEtching(a.etching, s.tx.loc))
    || (a.DoEtchCenotaph? && rune == FromCenotaphEtching(a.name, s.tx.loc))
  }

  lemma EtchingIs(s: State, a: Action) returns (rune: DbRune)
    requires a.DoEtch? || a.DoEtchCenotaph?
    ensures Etches(s, a, rune) && rune.id == s.tx.loc.Id()
    ensures RunesAfter(s, a) == s.runes[rune.id := rune] && LateAfter(s, a) == LateIf(s, rune)
  {
    hide HasName;
    rune := if a.DoEtch? then FromEtching(a.etching, s.tx.loc) else FromCenotaphEtching(a.name, s.tx.loc);
  }

  lemma ActionKeepsNames(s: State, a: Action)
    requires NamesHeld(s) && Enabled(s, a)
    ensures NamesHeld(Apply(s, a))
    ensures OneHolderEach(s.runes, s.late) ==> OneHolderEach(Apply(s, a).runes, Apply(s, a).late)
  {
    hide StepOf, IsLookup, Gather, HasName, AllHaveHolders, OneHolderEach, RunesAfter, LateAfter, BeginState;
    ApplyNames(s, a);
    if a.DoEtch? || a.DoEtchCenotaph? {
      var rune := EtchingIs(s, a);
      HolderStays(s.runes, s.late, rune);
      OneMoreHolder(s.runes, s.late, rune);
    }
  }

  lemma ApplyNames(s: State, a: Action)
    ensures Apply(s, a).runes == RunesAfter(s, a) && Apply(s, a).late == LateAfter(s, a)
    ensures !a.DoEtch? && !a.DoEtchCenotaph? ==> Apply(s, a).runes == s.runes && Apply(s, a).late == s.late
    ensures (a.DoEtch? || a.DoEtchCenotaph?) && Enabled(s, a) ==> s.tx.loc.Id() !in s.runes
  {
    hide StepOf, FromEtching, FromCenotaphEtching, HasName, Gather, IsLookup;
  }

  lemma OneMoreHolder(runes: map<RuneId, DbRune>, late: set<RuneId>, rune: DbRune)
    requires rune.id !in runes
    ensures OneHolderEach(runes, late) ==>
              OneHolderEach(runes[rune.id := rune], if HasName(runes, rune.name) then late + {rune.id} else late)
  {
  }

  /** In every run each name in use has a rune that was not late, and only one if the tables start with distinct names. */
  lemma {:induction false} RunKeepsNames(start: map<RuneId, DbRune>, actions: seq<Action>)
    requires Legal(Init(start), actions)
    ensures NamesHeld(RunFrom(Init(start), actions))
    ensures OneHolderEach(start, {}) ==>
              OneHolderEach(RunFrom(Init(start), actions).runes, RunFrom(Init(start), actions).late)
  {
    hide Enabled, Apply, NamesHeld, OneHolderEach;
    if actions == [] {
      InitNames(start);
    } else {
      RunKeepsNames(start, DropLast(actions));
      ActionKeepsNames(RunFrom(Init(start), DropLast(actions)), Last(actions));
    }
  }

  lemma InitNames(start: map<RuneId, DbRune>)
    ensures NamesHeld(Init(start))
  {
    forall r | r in start ensures HasHolder(start, {}, start[r].name) {
    }
  }

  // ----- Who is late -----

  /** When this rune came, some other rune had its name already. */
  ghost predicate CameLater(start: map<RuneId, DbRune>, actions: seq<Action>, rune: RuneId)
    requires rune in RunFrom(Init(start), actions).runes
  {
    exists i :: 0 <= i < |actions| && CameAt(start, actions, i, rune, RunFrom(Init(start), actions).runes[rune].name)
  }

  ghost predicate CameAt(start: map<RuneId, DbRune>, actions: seq<Action>, i: nat, rune: RuneId, name: u128)
    requires i < |actions|
  {
    var before, after := RunFrom(Init(start), actions[..i]), RunFrom(Init(start), actions[..i + 1]);
    rune !in before.runes && rune in after.runes && HasName(before.runes, name)
  }

  /** The runes recorded as late are exactly those etched when another rune had their name already. */
  lemma {:induction false} LateExactly(start: map<RuneId, DbRune>, actions: seq<Action>, rune: RuneId)
    requires Legal(Init(start), actions) && rune in RunFrom(Init(start), actions).runes
    ensures rune in RunFrom(Init(start), actions).late <==> CameLater(start, actions, rune)
  {
    hide Enabled, Apply, HasName;
    if actions == [] {
      assert RunFrom(Init(start), actions).late == {};
    } else {
      var init, a := DropLast(actions), Last(actions);
      var before, after := RunFrom(Init(start), init), RunFrom(Init(start), actions);
      var name := after.runes[rune].name;
      LastStep(before, a, rune);
      assert actions[..|init|] == init && actions[..|actions|] == actions;
      RunKeepsNames(start, init);
      if rune in before.runes {
        LateExactly(start, init, rune);
        forall i | 0 <= i < |init| ensures CameAt(start, actions, i, rune, name) == CameAt(start, init, i, rune, name) {
          assert actions[..i] == init[..i] && actions[..i + 1] == init[..i + 1];
        }
        assert !CameAt(start, actions, |init|, rune, name);
      } else {
        forall i | 0 <= i < |init| ensures !CameAt(start, actions, i, rune, name) {
          assert actions[..i + 1] == init[..i + 1];
          if CameAt(start, actions, i, rune, name) {
            RunesGrow(start, init, i + 1, rune);
          }
        }
        assert CameAt(start, actions, |init|, rune, name) <==> HasName(before.runes, name);
      }
    }
  }

  lemma LastStep(s: State, a: Action, rune: RuneId)
    requires Enabled(s, a)
    ensures var t := Apply(s, a);
            && (rune in s.runes ==> rune in t.runes && t.runes[rune] == s.runes[rune] && (rune in t.late <==> rune in s.late))
            && (rune in t.runes && rune !in s.runes && rune !in s.late ==>
                  (rune in t.late <==> HasName(s.runes, t.runes[rune].name)))
  {
    hide StepOf, IsLookup, Gather, HasName, RunesAfter, LateAfter, BeginState;
    ApplyNames(s, a);
    if a.DoEtch? || a.DoEtchCenotaph? {
      var etched := EtchingIs(s, a);
    }
  }

  lemma {:induction false} RunesGrow(start: map<RuneId, DbRune>, actions: seq<Action>, i: nat, rune: RuneId)
    requires Legal(Init(start), actions) && i <= |actions| && rune in RunFrom(Init(start), actions[..i]).runes
    ensures rune in RunFrom(Init(start), actions).runes
    decreases |actions|
  {
    hide Enabled, Apply;
    if i == |actions| {
      assert actions[..i] == actions;
    } else {
      assert DropLast(actions)[..i] == actions[..i];
      RunesGrow(start, DropLast(actions), i, rune);
      RunesStay(RunFrom(Init(start), DropLast(actions)), Last(actions), rune);
    }
  }
}
