/**
 Particular runs of the publication protocol: a bake scheduled alone completes, and reusing
 a temporary name that another bake still holds can empty a pack.
 */
module PublicationRuns {
  import opened Bytes
  import opened Publication
  import opened PublicationProofs

  // ----- One bake, undisturbed

  /** The root after a bake of this plan succeeded. */
  function WithPack(root: Root, plan: Plan): Root {
    root.(packs := root.packs[plan.manifest := Directory(plan.Tree())], current := Some(plan.PointerText()))
  }

  predicate CanPublish(root: Root, plan: Plan) {
    plan.manifest !in root.packs || root.packs[plan.manifest] == Directory(plan.Tree())
  }

  /** Of two plans with one manifest, the second can be published exactly if it has the same
      files. */
  lemma SecondPublishesExactly(root: Root, first: Plan, second: Plan)
    requires first.manifest == second.manifest
    ensures CanPublish(WithPack(root, first), second) <==> first.Tree() == second.Tree()
  {
  }

  function Moved(w: World, b: nat, root: Root, phase: Phase): World
    requires b < |w.bakers|
  {
    World(root, w.bakers[b := w.bakers[b].(phase := phase)])
  }

  lemma {:induction false} RunOn(w: World, first: seq<Event>, second: seq<Event>)
    requires Runs(w, first) && Runs(After(w, first), second)
    ensures Runs(w, first + second) && After(w, first + second) == After(After(w, first), second)
    decreases |first|
  {
    if first == [] {
      assert first + second == second;
    } else {
      var e := first[0];
      RunOn(Step(w, e.baker, e.action), first[1..], second);
      assert (first + second)[1..] == first[1..] + second;
    }
  }

  /** Some schedule leads from one world to the other. */
  ghost predicate Reaches(w: World, w': World) {
    exists schedule :: Runs(w, schedule) && After(w, schedule) == w'
  }

  lemma ReachStep(w: World, b: nat, a: Action)
    requires Enabled(w, b, a)
    ensures Reaches(w, Step(w, b, a))
  {
    var schedule, w' := [Event(b, a)], Step(w, b, a);
    assert schedule[1..] == [] && Runs(w', []) && After(w', []) == w';
    assert Runs(w, schedule) && After(w, schedule) == Step(w, b, a);
  }

  lemma ReachOn(w: World, w': World, w'': World)
    requires Reaches(w, w') && Reaches(w', w'')
    ensures Reaches(w, w'')
  {
    var first :| Runs(w, first) && After(w, first) == w';
    var second :| Runs(w', second) && After(w', second) == w'';
    RunOn(w, first, second);
  }

  /** Writing every file, one after the other. */
  lemma {:induction false} WritingEnds(w: World, b: nat, t: nat, n: nat)
    requires b < |w.bakers| && t in w.root.temps
    requires var plan := w.bakers[b].plan;
             n <= |plan.files| && w.bakers[b].phase == Writing(t, n) && w.root.temps[t] == TreeAfter(plan.Writes(), n)
    ensures Reaches(w, Moved(w, b, w.root.(temps := w.root.temps[t := w.bakers[b].plan.Tree()]), Written(t)))
    decreases |w.bakers[b].plan.files| - n
  {
    var plan := w.bakers[b].plan;
    var w' := Step(w, b, FinishWrite);
    ReachStep(w, b, FinishWrite);
    assert w'.root.temps[t] == TreeAfter(plan.Writes(), n + 1);
    if n < |plan.files| {
      WritingEnds(w', b, t, n + 1);
      assert w'.root.temps[t := plan.Tree()] == w.root.temps[t := plan.Tree()];
      ReachOn(w, w', Moved(w, b, w.root.(temps := w.root.temps[t := plan.Tree()]), Written(t)));
    }
  }

  /** Removing a temporary directory file by file. */
  lemma {:induction false} RemovalEnds(w: World, b: nat, t: nat)
    requires b < |w.bakers| && t in w.root.temps && w.bakers[b].phase == Discarding(t)
    ensures Reaches(w, Moved(w, b, w.root.(temps := w.root.temps - {t}), Pointing(t)))
    decreases |w.root.temps[t]|
  {
    var tree := w.root.temps[t];
    if tree == map[] {
      ReachStep(w, b, RemoveDirectory);
    } else {
      var name :| name in tree;
      var w' := Step(w, b, RemoveFile(name));
      ReachStep(w, b, RemoveFile(name));
      RemovalEnds(w', b, t);
      assert w'.root.temps - {t} == w.root.temps - {t};
      ReachOn(w, w', Moved(w, b, w.root.(temps := w.root.temps - {t}), Pointing(t)));
    }
  }

  /** From the written directory to its final place. */
  lemma PlacingEnds(w: World, b: nat, t: nat)
    requires b < |w.bakers| && t in w.root.temps && w.bakers[b].phase == Written(t)
    requires w.root.temps[t] == w.bakers[b].plan.Tree() && CanPublish(w.root, w.bakers[b].plan)
    ensures var plan := w.bakers[b].plan;
            var packs := w.root.packs[plan.manifest := Directory(plan.Tree())];
            Reaches(w, Moved(w, b, w.root.(packs := packs, temps := w.root.temps - {t}), Pointing(t)))
  {
    var m := w.bakers[b].plan.manifest;
    var tested := Step(w, b, TestFinal);
    ReachStep(w, b, TestFinal);
    if m in w.root.packs {
      var compared := Step(tested, b, Compare);
      ReachStep(tested, b, Compare);
      ReachOn(w, tested, compared);
      RemovalEnds(compared, b, t);
      assert w.root.packs[m := w.root.packs[m]] == w.root.packs;
      ReachOn(w, compared, Moved(w, b, w.root.(temps := w.root.temps - {t}), Pointing(t)));
    } else {
      ReachStep(tested, b, Rename);
      ReachOn(w, tested, Step(tested, b, Rename));
    }
  }

  lemma PointerGetsWritten(w: World, b: nat, t: nat, q: nat)
    requires b < |w.bakers| && w.bakers[b].phase == Pointing(t)
    requires q !in w.root.pointers && PointerUnheld(w, q)
    ensures var text := w.bakers[b].plan.PointerText();
            Reaches(w, Moved(w, b, w.root.(pointers := w.root.pointers[q := Scratch(b, text)]), ReplacingPointer(t, q)))
  {
    var text := w.bakers[b].plan.PointerText();
    var made := Step(w, b, MakePointer(q));
    ReachStep(w, b, MakePointer(q));
    ReachStep(made, b, FinishPointer);
    assert made.root.pointers[q := Scratch(b, text)] == w.root.pointers[q := Scratch(b, text)];
    ReachOn(w, made, Step(made, b, FinishPointer));
  }

  /** From there to `CURRENT`. */
  lemma PointingEnds(w: World, b: nat, t: nat, q: nat)
    requires b < |w.bakers| && w.bakers[b].phase == Pointing(t)
    requires q !in w.root.pointers && PointerUnheld(w, q)
    ensures Reaches(w, Moved(w, b, w.root.(current := Some(w.bakers[b].plan.PointerText())), Done))
  {
    var text := w.bakers[b].plan.PointerText();
    PointerGetsWritten(w, b, t, q);
    var written := Moved(w, b, w.root.(pointers := w.root.pointers[q := Scratch(b, text)]), ReplacingPointer(t, q));
    var replaced := Step(written, b, ReplaceCurrent);
    ReachStep(written, b, ReplaceCurrent);
    ReachStep(replaced, b, Finish);
    ReachOn(w, written, replaced);
    assert replaced.root.pointers - {q} == w.root.pointers;
    ReachOn(w, replaced, Step(replaced, b, Finish));
  }

  lemma PackGetsWritten(w: World, b: nat, t: nat)
    requires b < |w.bakers| && w.bakers[b].phase.Starting? && t !in w.root.temps && TempUnheld(w, t)
    ensures Reaches(w, Moved(w, b, w.root.(temps := w.root.temps[t := w.bakers[b].plan.Tree()]), Written(t)))
  {
    var tree := w.bakers[b].plan.Tree();
    var made := Step(w, b, MakeTemp(t));
    ReachStep(w, b, MakeTemp(t));
    WritingEnds(made, b, t, 0);
    assert made.root.temps[t := tree] == w.root.temps[t := tree];
    ReachOn(w, made, Moved(w, b, w.root.(temps := w.root.temps[t := tree]), Written(t)));
  }

  lemma PackGetsPlaced(w: World, b: nat, t: nat)
    requires b < |w.bakers| && w.bakers[b].phase.Starting? && CanPublish(w.root, w.bakers[b].plan)
    requires t !in w.root.temps && TempUnheld(w, t)
    ensures var plan := w.bakers[b].plan;
            var packs := w.root.packs[plan.manifest := Directory(plan.Tree())];
            Reaches(w, Moved(w, b, w.root.(packs := packs), Pointing(t)))
  {
    var plan := w.bakers[b].plan;
    PackGetsWritten(w, b, t);
    var written := Moved(w, b, w.root.(temps := w.root.temps[t := plan.Tree()]), Written(t));
    PlacingEnds(written, b, t);
    assert written.root.temps - {t} == w.root.temps;
    var packs := w.root.packs[plan.manifest := Directory(plan.Tree())];
    ReachOn(w, written, Moved(w, b, w.root.(packs := packs), Pointing(t)));
  }

  /** Whatever other bakes have left behind, a bake that is scheduled alone from its start
      completes, exactly as `Publish` does. */
  lemma SoloBakeCompletes(w: World, b: nat, t: nat, q: nat)
    requires b < |w.bakers| && w.bakers[b].phase.Starting? && CanPublish(w.root, w.bakers[b].plan)
    requires t !in w.root.temps && TempUnheld(w, t) && q !in w.root.pointers && PointerUnheld(w, q)
    ensures Reaches(w, Moved(w, b, WithPack(w.root, w.bakers[b].plan), Done))
  {
    var plan := w.bakers[b].plan;
    PackGetsPlaced(w, b, t);
    var placed := Moved(w, b, w.root.(packs := w.root.packs[plan.manifest := Directory(plan.Tree())]), Pointing(t));
    PointingEnds(placed, b, t, q);
    ReachOn(w, placed, Moved(w, b, WithPack(w.root, plan), Done));
  }

  // ----- Names that are used again

  function WithTree(w: World, t: nat, tree: Tree): World {
    w.(root := w.root.(temps := w.root.temps[t := tree]))
  }

  lemma ReachSelf(w: World)
    ensures Reaches(w, w)
  {
    assert Runs(w, []) && After(w, []) == w;
  }

  lemma FileIsRemoved(w: World, c: nat, t: nat, name: Name)
    requires c < |w.bakers| && w.bakers[c].phase.CleaningUp? && w.bakers[c].phase.temp == t && t in w.root.temps
    ensures Reaches(w, WithTree(w, t, w.root.temps[t] - {name}))
  {
    ReachStep(w, c, RemoveFile(name));
    assert Step(w, c, RemoveFile(name)).bakers == w.bakers;
  }

  /** The error handler of one bake can empty a directory whose name it holds. */
  lemma {:induction false} DirectoryIsEmptied(w: World, c: nat, t: nat)
    requires c < |w.bakers| && w.bakers[c].phase.CleaningUp? && w.bakers[c].phase.temp == t && t in w.root.temps
    ensures Reaches(w, WithTree(w, t, map[]))
    decreases |w.root.temps[t]|
  {
    var tree := w.root.temps[t];
    if tree == map[] {
      assert w.root.temps[t := map[]] == w.root.temps;
      ReachSelf(w);
    } else {
      var name :| name in tree;
      assert (tree - {name}).Keys == tree.Keys - {name};
      var w' := WithTree(w, t, tree - {name});
      FileIsRemoved(w, c, t, name);
      DirectoryIsEmptied(w', c, t);
      assert w'.root.temps[t := map[]] == w.root.temps[t := map[]];
      ReachOn(w, w', WithTree(w, t, map[]));
    }
  }

  /** A bake about to rename an emptied directory publishes it. */
  lemma EmptyPackIsPublished(w: World, b: nat, t: nat, q: nat) returns (bad: World)
    requires b < |w.bakers| && w.bakers[b].phase == Renaming(t)
    requires t in w.root.temps && w.root.temps[t] == map[] && w.bakers[b].plan.manifest !in w.root.packs
    requires q !in w.root.pointers && PointerUnheld(w, q)
    ensures Reaches(w, bad) && NamesEmptyPack(bad, w.bakers[b].plan)
  {
    var placed := Step(w, b, Rename);
    ReachStep(w, b, Rename);
    PointingEnds(placed, b, t, q);
    bad := Moved(placed, b, placed.root.(current := Some(w.bakers[b].plan.PointerText())), Done);
    ReachOn(w, placed, bad);
  }

  ghost predicate NamesEmptyPack(w: World, plan: Plan) {
    && w.root.current == Some(plan.PointerText())
    && plan.manifest in w.root.packs && w.root.packs[plan.manifest] == Directory(map[])
  }

  lemma EmptyIsNotWhole(w: World, plan: Plan, initial: Option<Blob>)
    requires NamesEmptyPack(w, plan) && initial != Some(plan.PointerText())
    ensures !CurrentNamesWholePack(w, initial)
  {
    forall b | 0 <= b < |w.bakers| && w.root.current == Some(w.bakers[b].plan.PointerText())
      ensures !Published(w.root, w.bakers[b].plan)
    {
      var m := w.bakers[b].plan.manifest;
      assert (m + NEWLINE)[..|m|] == m && (plan.manifest + NEWLINE)[..|m|] == plan.manifest;
      TreeHasMetadata(w.bakers[b].plan);
    }
  }

  /** A bake that was given the name writes all its files and finds its manifest free. */
  lemma ReuserGetsReady(w: World, b: nat, t: nat)
    requires b < |w.bakers| && w.bakers[b].phase.Starting? && w.bakers[b].plan.manifest !in w.root.packs
    requires t !in w.root.temps
    ensures Reaches(Step(w, b, MakeTemp(t)),
                    Moved(w, b, w.root.(temps := w.root.temps[t := w.bakers[b].plan.Tree()]), Renaming(t)))
  {
    var tree := w.bakers[b].plan.Tree();
    var made := Step(w, b, MakeTemp(t));
    WritingEnds(made, b, t, 0);
    var written := Moved(w, b, w.root.(temps := w.root.temps[t := tree]), Written(t));
    assert made.root.temps[t := tree] == w.root.temps[t := tree];
    ReachStep(written, b, TestFinal);
    ReachOn(made, written, Step(written, b, TestFinal));
  }

  /** Holding a name whose directory is gone, a bake is past its rename, and what others do
      meanwhile does not keep it from failing. */
  lemma HolderCleansUp(w: World, w': World, c: nat, t: nat, initial: Option<Blob>) returns (leftover: Option<nat>)
    requires Inv(w, initial) && c < |w.bakers| && w.bakers[c].Temp() == Some(t) && t !in w.root.temps
    requires c < |w'.bakers| && w'.bakers[c] == w.bakers[c]
    ensures Reaches(w', Moved(w', c, w'.root, CleaningUp(t, leftover)))
  {
    assert BakerOk(w.root, w.bakers[c], c);
    var p := w.bakers[c].phase;
    if p.CleaningUp? {
      leftover := p.leftover;
      ReachSelf(w');
      assert Moved(w', c, w'.root, p) == w';
    } else {
      leftover := if p.WritingPointer? || p.ReplacingPointer? then Some(p.pointer) else None;
      ReachStep(w', c, Raise);
    }
  }

  /** ... and from emptying the directory that has the name now. */
  lemma HolderEmpties(w: World, w': World, c: nat, t: nat, initial: Option<Blob>) returns (leftover: Option<nat>)
    requires Inv(w, initial) && c < |w.bakers| && w.bakers[c].Temp() == Some(t) && t !in w.root.temps
    requires c < |w'.bakers| && w'.bakers[c] == w.bakers[c] && t in w'.root.temps
    ensures Reaches(w', WithTree(Moved(w', c, w'.root, CleaningUp(t, leftover)), t, map[]))
  {
    leftover := HolderCleansUp(w, w', c, t, initial);
    var cleaning := Moved(w', c, w'.root, CleaningUp(t, leftover));
    DirectoryIsEmptied(cleaning, c, t);
    ReachOn(w', cleaning, WithTree(cleaning, t, map[]));
  }

  /** Where another bake still holds the name a bake is given, its error handler can empty
      the new directory and `CURRENT` ends up naming an empty pack. */
  lemma ReusedNameEmptiesPack(w: World, b: nat, c: nat, t: nat, q: nat, initial: Option<Blob>) returns (bad: World)
    requires Inv(w, initial) && b < |w.bakers| && c < |w.bakers|
    requires w.bakers[b].phase.Starting? && w.bakers[b].plan.manifest !in w.root.packs
    requires t !in w.root.temps && w.bakers[c].Temp() == Some(t)
    requires q !in w.root.pointers && PointerUnheld(w, q)
    ensures Reaches(Step(w, b, MakeTemp(t)), bad) && NamesEmptyPack(bad, w.bakers[b].plan)
  {
    var made := Step(w, b, MakeTemp(t));
    var ready := Moved(w, b, w.root.(temps := w.root.temps[t := w.bakers[b].plan.Tree()]), Renaming(t));
    ReuserGetsReady(w, b, t);
    assert ready.bakers[c] == w.bakers[c];
    var leftover := HolderEmpties(w, ready, c, t, initial);
    var emptied := WithTree(Moved(ready, c, ready.root, CleaningUp(t, leftover)), t, map[]);
    ReachOn(made, ready, emptied);
    bad := EmptyPackIsPublished(emptied, b, t, q);
    ReachOn(made, emptied, bad);
  }

  /** Exactly when giving a bake a free temporary name is safe: every run from there keeps
      `CURRENT` naming a whole pack if and only if no unfinished bake still holds the name. */
  lemma NameReuseExactly(w: World, b: nat, t: nat, q: nat, initial: Option<Blob>)
    requires Inv(w, initial) && b < |w.bakers| && w.bakers[b].phase.Starting?
    requires w.bakers[b].plan.manifest !in w.root.packs && initial != Some(w.bakers[b].plan.PointerText())
    requires t !in w.root.temps && q !in w.root.pointers && PointerUnheld(w, q)
    ensures (forall w' :: Reaches(Step(w, b, MakeTemp(t)), w') ==> CurrentNamesWholePack(w', initial)) <==>
            TempUnheld(w, t)
  {
    var made := Step(w, b, MakeTemp(t));
    if TempUnheld(w, t) {
      StepKeepsInv(w, b, MakeTemp(t), initial);
      forall w' | Reaches(made, w')
        ensures CurrentNamesWholePack(w', initial)
      {
        var schedule :| Runs(made, schedule) && After(made, schedule) == w';
        RunKeepsInv(made, schedule, initial);
      }
    } else {
      var c :| 0 <= c < |w.bakers| && w.bakers[c].Temp() == Some(t);
      var bad := ReusedNameEmptiesPack(w, b, c, t, q, initial);
      EmptyIsNotWhole(bad, w.bakers[b].plan, initial);
    }
  }

  /** And the unsafe case does come up: of any two bakes about to start with different, free
      manifests, one can rename its directory away and leave its name to the other. */
  lemma NameGetsReused(w: World, b: nat, c: nat, t: nat, q: nat) returns (reused: World, bad: World)
    requires Initial(w) && b < |w.bakers| && c < |w.bakers| && t !in w.root.temps && q !in w.root.pointers
    requires var m, n := w.bakers[b].plan.manifest, w.bakers[c].plan.manifest;
             m != n && m !in w.root.packs && n !in w.root.packs
    ensures Reaches(w, reused) && Possible(reused, b, MakeTemp(t))
    ensures Reaches(Step(reused, b, MakeTemp(t)), bad) && NamesEmptyPack(bad, w.bakers[b].plan)
  {
    reused := NameIsLeft(w, c, t);
    bad := ReusedNameEmptiesPack(reused, b, c, t, q, w.root.current);
  }

  lemma NameIsLeft(w: World, c: nat, t: nat) returns (w': World)
    requires Initial(w) && c < |w.bakers| && t !in w.root.temps && w.bakers[c].plan.manifest !in w.root.packs
    ensures Reaches(w, w') && Inv(w', w.root.current) && |w'.bakers| == |w.bakers|
    ensures w'.root.temps == w.root.temps && w'.root.pointers == w.root.pointers
    ensures w'.root.packs.Keys == w.root.packs.Keys + {w.bakers[c].plan.manifest}
    ensures w'.bakers == w.bakers[c := w.bakers[c].(phase := Pointing(t))]
  {
    var plan := w.bakers[c].plan;
    PackGetsPlaced(w, c, t);
    w' := Moved(w, c, w.root.(packs := w.root.packs[plan.manifest := Directory(plan.Tree())]), Pointing(t));
    var schedule :| Runs(w, schedule) && After(w, schedule) == w';
    RunKeepsInv(w, schedule, w.root.current);
  }

  // ----- Pointer names that are used again

  /** A bake that is still to move its deleted pointer file moves another's, empty as it is,
      if that one is given the same name. */
  lemma ReusedPointerIsMoved(w: World, b: nat, c: nat, q: nat) returns (bad: World)
    requires b < |w.bakers| && c < |w.bakers| && w.bakers[b].phase.Pointing?
    requires q !in w.root.pointers && w.bakers[c].Pointer() == Some(q)
    ensures Reaches(Step(w, b, MakePointer(q)), bad) && bad.root.current == Some([])
  {
    var made := Step(w, b, MakePointer(q));
    assert made.bakers[c] == w.bakers[c] && made.root.pointers[q] == Scratch(b, []);
    var ready := made;
    ReachSelf(made);
    if w.bakers[c].phase.WritingPointer? {
      ready := Step(made, c, FinishPointer);
      ReachStep(made, c, FinishPointer);
    }
    bad := Step(ready, c, ReplaceCurrent);
    ReachStep(ready, c, ReplaceCurrent);
    ReachOn(made, ready, bad);
  }

  /** Exactly when giving a bake a free pointer name is safe: every run from there keeps
      `CURRENT` naming a whole pack if and only if no bake is still to move a file of that
      name. */
  lemma PointerReuseExactly(w: World, b: nat, q: nat, initial: Option<Blob>)
    requires Inv(w, initial) && b < |w.bakers| && w.bakers[b].phase.Pointing?
    requires q !in w.root.pointers && initial != Some([])
    ensures (forall w' :: Reaches(Step(w, b, MakePointer(q)), w') ==> CurrentNamesWholePack(w', initial)) <==>
            PointerUnheld(w, q)
  {
    var made := Step(w, b, MakePointer(q));
    if PointerUnheld(w, q) {
      StepKeepsInv(w, b, MakePointer(q), initial);
      forall w' | Reaches(made, w')
        ensures CurrentNamesWholePack(w', initial)
      {
        var schedule :| Runs(made, schedule) && After(made, schedule) == w';
        RunKeepsInv(made, schedule, initial);
      }
    } else {
      var c :| 0 <= c < |w.bakers| && w.bakers[c].Pointer() == Some(q);
      var bad := ReusedPointerIsMoved(w, b, c, q);
      assert !CurrentNamesWholePack(bad, initial);
    }
  }

  /** One more bake stands before its pointer file. */
  lemma StartsPointing(w: World, b: nat, t: nat) returns (w': World)
    requires b < |w.bakers| && w.bakers[b].phase.Starting? && w.bakers[b].plan.manifest !in w.root.packs
    requires t !in w.root.temps && TempUnheld(w, t)
    ensures Reaches(w, w') && |w'.bakers| == |w.bakers|
    ensures w'.bakers[b] == w.bakers[b].(phase := Pointing(t))
    ensures forall c :: 0 <= c < |w.bakers| && c != b ==> w'.bakers[c] == w.bakers[c]
    ensures w'.root.temps == w.root.temps && w'.root.pointers == w.root.pointers
    ensures w'.root.packs.Keys == w.root.packs.Keys + {w.bakers[b].plan.manifest}
  {
    var plan := w.bakers[b].plan;
    PackGetsPlaced(w, b, t);
    w' := Moved(w, b, w.root.(packs := w.root.packs[plan.manifest := Directory(plan.Tree())]), Pointing(t));
  }

  /** A bake past its replacement deletes the pointer file of another that was given its name. */
  lemma PointerIsDeleted(w: World, c: nat, d: nat, q: nat) returns (w': World)
    requires c < |w.bakers| && d < |w.bakers| && c != d && w.bakers[c].phase.Pointing? && w.bakers[d].phase.Pointing?
    requires q !in w.root.pointers && PointerUnheld(w, q)
    ensures Reaches(w, w') && |w'.bakers| == |w.bakers|
    ensures q !in w'.root.pointers && w'.bakers[c].Pointer() == Some(q)
    ensures forall b :: 0 <= b < |w.bakers| && b != c && b != d ==> w'.bakers[b] == w.bakers[b]
  {
    var t := w.bakers[d].phase.temp;
    PointerGetsWritten(w, d, t, q);
    var text := w.bakers[d].plan.PointerText();
    var written := Moved(w, d, w.root.(pointers := w.root.pointers[q := Scratch(d, text)]), ReplacingPointer(t, q));
    var replaced := Step(written, d, ReplaceCurrent);
    ReachStep(written, d, ReplaceCurrent);
    ReachOn(w, written, replaced);
    w' := NameIsTakenOver(replaced, c, d, q);
    ReachOn(w, replaced, w');
  }

  lemma NameIsTakenOver(w: World, c: nat, d: nat, q: nat) returns (w': World)
    requires c < |w.bakers| && d < |w.bakers| && c != d && w.bakers[c].phase.Pointing?
    requires w.bakers[d].phase.Finishing? && w.bakers[d].phase.pointer == q
    requires q !in w.root.pointers && PointerUnheld(w, q)
    ensures Reaches(w, w') && |w'.bakers| == |w.bakers|
    ensures q !in w'.root.pointers && w'.bakers[c].Pointer() == Some(q)
    ensures forall b :: 0 <= b < |w.bakers| && b != c && b != d ==> w'.bakers[b] == w.bakers[b]
  {
    var made := Step(w, c, MakePointer(q));
    ReachStep(w, c, MakePointer(q));
    w' := Step(made, d, Finish);
    ReachStep(made, d, Finish);
    ReachOn(w, made, w');
  }

  /** Three different bakes about to start, three free names for their directories, and three
      different, free manifests. */
  ghost predicate ThreeFresh(w: World, b: nat, c: nat, d: nat, t: seq<nat>) {
    && b < |w.bakers| && c < |w.bakers| && d < |w.bakers|
    && |t| == 3 && t[0] != t[1] && t[1] != t[2] && t[0] != t[2]
    && (forall i :: 0 <= i < 3 ==> t[i] !in w.root.temps)
    && var l, m, n := w.bakers[b].plan.manifest, w.bakers[c].plan.manifest, w.bakers[d].plan.manifest;
       l != m && m != n && l != n && l !in w.root.packs && m !in w.root.packs && n !in w.root.packs
  }

  lemma StillUnheld(w: World, w': World, b: nat, t: nat, other: nat)
    requires b < |w.bakers| == |w'.bakers| && w'.bakers[b].phase == Pointing(t) && other != t
    requires forall c :: 0 <= c < |w.bakers| && c != b ==> w'.bakers[c] == w.bakers[c]
    requires TempUnheld(w, other)
    ensures TempUnheld(w', other)
  {
  }

  lemma ThreeStartPointing(w: World, b: nat, c: nat, d: nat, t: seq<nat>) returns (w': World)
    requires Initial(w) && ThreeFresh(w, b, c, d, t)
    ensures Reaches(w, w') && |w'.bakers| == |w.bakers| && w'.root.pointers == w.root.pointers
    ensures w'.bakers[b].phase.Pointing? && w'.bakers[c].phase.Pointing? && w'.bakers[d].phase.Pointing?
    ensures forall i :: 0 <= i < |w'.bakers| ==> w'.bakers[i].Pointer() == None
  {
    var w1 := StartsPointing(w, b, t[0]);
    StillUnheld(w, w1, b, t[0], t[1]);
    StillUnheld(w, w1, b, t[0], t[2]);
    var w2 := StartsPointing(w1, c, t[1]);
    StillUnheld(w1, w2, c, t[1], t[2]);
    w' := StartsPointing(w2, d, t[2]);
    ReachOn(w, w1, w2);
    ReachOn(w, w2, w');
  }

  /** The unsafe case does come up: of any three bakes about to start with different, free
      manifests, one can delete the pointer file of another that was given its name, and the
      third be given that name again. */
  lemma PointerGetsReused(w: World, b: nat, c: nat, d: nat, t: seq<nat>, q: nat) returns (reused: World, bad: World)
    requires Initial(w) && ThreeFresh(w, b, c, d, t) && q !in w.root.pointers
    ensures Reaches(w, reused) && Possible(reused, b, MakePointer(q))
    ensures Reaches(Step(reused, b, MakePointer(q)), bad) && bad.root.current == Some([])
  {
    var ready := ThreeStartPointing(w, b, c, d, t);
    reused := PointerIsDeleted(ready, c, d, q);
    ReachOn(w, ready, reused);
    bad := ReusedPointerIsMoved(reused, b, c, q);
  }

  /** An output root on disk. */
  class OutputRoot {
    var packs: map<Blob, Entry>
    var temps: map<nat, Tree>
    var pointers: map<nat, Scratch>
    var current: Option<Blob>

    ghost function View(): Root
      reads this
    {
      Root(packs, temps, pointers, current)
    }

    /** Write every file into the temporary directory. */
    static method WriteAll(writes: seq<File>) returns (tree: Tree)
      ensures tree == TreeAfter(writes, |writes|)
    {
      tree := map[];
      for i := 0 to |writes|
        invariant tree == TreeAfter(writes, i)
      {
        tree := tree[writes[i].name := writes[i].data];
      }
    }

    /** The publishing half of `bake` when no other bake runs and nothing fails.  It refuses
        exactly when the manifest's path exists with other contents, and a refusal leaves the
        root as it was; the names t and q come from `mkdtemp` and `mkstemp`. */
    method Publish(plan: Plan, t: nat, q: nat) returns (ok: bool)
      requires t !in temps && q !in pointers
      modifies this
      ensures ok <==> CanPublish(old(View()), plan)
      ensures View() == if ok then WithPack(old(View()), plan) else old(View())
    {
      var tree := WriteAll(plan.Writes());
      temps := temps[t := tree];
      if plan.manifest in packs {
        if packs[plan.manifest] != Directory(temps[t]) {
          temps := temps - {t};
          return false;
        }
        assert packs == packs[plan.manifest := Directory(plan.Tree())];
      } else {
        packs := packs[plan.manifest := Directory(temps[t])];
      }
      temps := temps - {t};
      assert temps == old(temps);
      pointers := pointers[q := Scratch(0, plan.PointerText())];
      current := Some(pointers[q].data);
      pointers := pointers - {q};
      return true;
    }
  }
}
