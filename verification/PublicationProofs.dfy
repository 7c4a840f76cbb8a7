/** What every run of the publication protocol keeps. */
module PublicationProofs {
  import opened Bytes
  import opened Publication

  // ----- Safety

  /** This plan's pack is in place, whole. */
  ghost predicate Published(root: Root, plan: Plan) {
    plan.manifest in root.packs && root.packs[plan.manifest] == Directory(plan.Tree())
  }

  /** `CURRENT` is what it was before any bake, or names the whole pack of one of them. */
  ghost predicate CurrentNamesWholePack(w: World, initial: Option<Blob>) {
    w.root.current == initial
    || exists b :: 0 <= b < |w.bakers| && w.root.current == Some(w.bakers[b].plan.PointerText())
                   && Published(w.root, w.bakers[b].plan)
  }

  /** Nothing below `packs/` is ever removed, and nothing but an empty directory changes. */
  ghost predicate PacksKept(before: map<Blob, Entry>, after: map<Blob, Entry>) {
    forall m :: m in before && before[m] != Directory(map[]) ==> m in after && after[m] == before[m]
  }

  ghost predicate BeingWritten(tree: Tree, writes: seq<File>, n: nat) {
    && n < |writes|
    && (tree == TreeAfter(writes, n)
        || exists k :: 0 <= k <= |writes[n].data|
                       && tree == TreeAfter(writes, n)[writes[n].name := writes[n].data[..k]])
  }

  ghost predicate BakerOk(root: Root, b: Baker, me: nat) {
    match b.phase
    case Starting => true
    case Writing(t, n) => t in root.temps && BeingWritten(root.temps[t], b.plan.Writes(), n)
    case Written(t) => t in root.temps && root.temps[t] == b.plan.Tree()
    case Comparing(t) => t in root.temps && root.temps[t] == b.plan.Tree()
    case Renaming(t) => t in root.temps && root.temps[t] == b.plan.Tree()
    case Discarding(t) => t in root.temps && Published(root, b.plan)
    case Pointing(_) => Published(root, b.plan)
    case WritingPointer(_, q) => (q in root.pointers ==> root.pointers[q].owner == me) && Published(root, b.plan)
    case ReplacingPointer(_, q) =>
      (q in root.pointers ==> root.pointers[q].data == b.plan.PointerText()) && Published(root, b.plan)
    case Finishing(_, _) => Published(root, b.plan)
    case CleaningUp(_, _) => true
    case Done => Published(root, b.plan)
    case Failed => true
  }

  ghost predicate Apart(b: Baker, c: Baker) {
    && (b.Temp().Some? ==> b.Temp() != c.Temp())
    && (b.Pointer().Some? ==> b.Pointer() != c.Pointer())
  }

  ghost predicate Inv(w: World, initial: Option<Blob>) {
    && (forall b :: 0 <= b < |w.bakers| ==> BakerOk(w.root, w.bakers[b], b))
    && (forall b, c :: 0 <= b < |w.bakers| && 0 <= c < |w.bakers| && b != c ==> Apart(w.bakers[b], w.bakers[c]))
    && CurrentNamesWholePack(w, initial)
  }

  /** Any number of bakes about to start on any output root, whatever it already holds. */
  ghost predicate Initial(w: World) {
    forall b :: 0 <= b < |w.bakers| ==> w.bakers[b].phase.Starting?
  }

  // ----- Each step keeps the invariant

  lemma TreeHasMetadata(plan: Plan)
    ensures METADATA in plan.Tree() && plan.Tree()[METADATA] == plan.metadata
    ensures plan.Tree() != map[]
  {
    assert METADATA in plan.Tree();
  }

  /** The acting bake's own part of the invariant. */
  lemma EffectKeepsActor(root: Root, plan: Plan, p: Phase, a: Action, w: World, b: nat)
    requires Enabled(w, b, a) && w.root == root && w.bakers[b] == Baker(plan, p)
    requires BakerOk(root, Baker(plan, p), b)
    ensures var (root', p') := Effect(root, b, plan, p, a);
            BakerOk(root', Baker(plan, p'), b)
  {
  }

  /** No action changes a pack, unless it was an empty directory. */
  lemma EffectKeepsPacks(w: World, b: nat, a: Action)
    requires Enabled(w, b, a)
    ensures PacksKept(w.root.packs, Step(w, b, a).root.packs)
  {
  }

  /** An action touches no temporary directory but its own. */
  lemma EffectIsLocalToTemp(w: World, b: nat, a: Action)
    requires Enabled(w, b, a)
    ensures var baker := w.bakers[b];
            var (root', p') := Effect(w.root, b, baker.plan, baker.phase, a);
            var baker' := baker.(phase := p');
            && (forall t :: t in w.root.temps && Some(t) != baker.Temp() && Some(t) != baker'.Temp() ==>
                  t in root'.temps && root'.temps[t] == w.root.temps[t])
            && (baker'.Temp().Some? && baker'.Temp() != baker.Temp() ==> TempUnheld(w, baker'.Temp().value))
  {
  }

  /** An action may delete any pointer file but writes to none but its own. */
  lemma EffectIsLocalToPointer(w: World, b: nat, a: Action)
    requires Enabled(w, b, a)
    ensures var baker := w.bakers[b];
            var (root', p') := Effect(w.root, b, baker.plan, baker.phase, a);
            var baker' := baker.(phase := p');
            && (forall q :: q in root'.pointers && Some(q) != baker.Pointer() && Some(q) != baker'.Pointer() ==>
                  q in w.root.pointers && root'.pointers[q] == w.root.pointers[q])
            && (baker'.Pointer().Some? && baker'.Pointer() != baker.Pointer() ==>
                  PointerUnheld(w, baker'.Pointer().value))
  {
  }

  lemma PublishedStays(root: Root, root': Root, plan: Plan)
    requires Published(root, plan) && PacksKept(root.packs, root'.packs)
    ensures Published(root', plan)
  {
    TreeHasMetadata(plan);
  }

  lemma BystanderKept(w: World, b: nat, a: Action, c: nat, initial: Option<Blob>)
    requires Inv(w, initial) && Enabled(w, b, a) && c < |w.bakers| && c != b
    ensures BakerOk(Step(w, b, a).root, w.bakers[c], c)
    ensures Apart(Step(w, b, a).bakers[b], w.bakers[c]) && Apart(w.bakers[c], Step(w, b, a).bakers[b])
  {
    var baker, other := w.bakers[b], w.bakers[c];
    EffectKeepsPacks(w, b, a);
    EffectIsLocalToTemp(w, b, a);
    EffectIsLocalToPointer(w, b, a);
    assert Apart(baker, other) && Apart(other, baker);
    OthersUndisturbed(w.root, Step(w, b, a).root, other, c);
  }

  /** A bake is undisturbed as long as its own directory is, its pointer file is or is gone,
      and packs are kept. */
  lemma OthersUndisturbed(root: Root, root': Root, other: Baker, me: nat)
    requires BakerOk(root, other, me) && PacksKept(root.packs, root'.packs)
    requires other.Temp().Some? && other.Temp().value in root.temps ==>
               other.Temp().value in root'.temps && root'.temps[other.Temp().value] == root.temps[other.Temp().value]
    requires other.Pointer().Some? && other.Pointer().value in root'.pointers ==>
               other.Pointer().value in root.pointers
               && root'.pointers[other.Pointer().value] == root.pointers[other.Pointer().value]
    ensures BakerOk(root', other, me)
  {
    if Published(root, other.plan) {
      PublishedStays(root, root', other.plan);
    }
  }

  lemma CurrentKept(w: World, b: nat, a: Action, initial: Option<Blob>)
    requires Inv(w, initial) && Enabled(w, b, a)
    ensures CurrentNamesWholePack(Step(w, b, a), initial)
  {
    var w' := Step(w, b, a);
    EffectKeepsPacks(w, b, a);
    if a.ReplaceCurrent? {
      assert w'.root.current == Some(w'.bakers[b].plan.PointerText()) && Published(w'.root, w'.bakers[b].plan);
    } else if w.root.current != initial {
      var c :| 0 <= c < |w.bakers| && w.root.current == Some(w.bakers[c].plan.PointerText())
               && Published(w.root, w.bakers[c].plan);
      PublishedStays(w.root, w'.root, w.bakers[c].plan);
      assert w'.bakers[c].plan == w.bakers[c].plan;
    }
  }

  lemma StepKeepsInv(w: World, b: nat, a: Action, initial: Option<Blob>)
    requires Inv(w, initial) && Enabled(w, b, a)
    ensures Inv(Step(w, b, a), initial)
    ensures PacksKept(w.root.packs, Step(w, b, a).root.packs)
  {
    var w' := Step(w, b, a);
    EffectKeepsActor(w.root, w.bakers[b].plan, w.bakers[b].phase, a, w, b);
    EffectKeepsPacks(w, b, a);
    CurrentKept(w, b, a, initial);
    forall c | 0 <= c < |w'.bakers| && c != b
      ensures BakerOk(w'.root, w'.bakers[c], c)
      ensures Apart(w'.bakers[b], w'.bakers[c]) && Apart(w'.bakers[c], w'.bakers[b])
    {
      BystanderKept(w, b, a, c, initial);
    }
  }

  lemma {:induction false} RunKeepsInv(w: World, schedule: seq<Event>, initial: Option<Blob>)
    requires Inv(w, initial) && Runs(w, schedule)
    ensures Inv(After(w, schedule), initial)
    ensures PacksKept(w.root.packs, After(w, schedule).root.packs)
    ensures |After(w, schedule).bakers| == |w.bakers|
    ensures forall b :: 0 <= b < |w.bakers| ==> After(w, schedule).bakers[b].plan == w.bakers[b].plan
    decreases |schedule|
  {
    if schedule != [] {
      var e := schedule[0];
      StepKeepsInv(w, e.baker, e.action, initial);
      RunKeepsInv(Step(w, e.baker, e.action), schedule[1..], initial);
    }
  }

  // ----- Main results

  /** Over every run of any number of interleaved bakes, however far each one gets:
      `CURRENT` is untouched or names a whole pack, a finished bake's pack is in place, and
      no pack seen at any point of the run has changed by any later point. */
  lemma PublicationSafety(w: World, first: seq<Event>, second: seq<Event>)
    requires Initial(w) && Runs(w, first) && Runs(After(w, first), second)
    ensures var w' := After(After(w, first), second);
            && CurrentNamesWholePack(w', w.root.current)
            && PacksKept(After(w, first).root.packs, w'.root.packs)
            && forall b :: 0 <= b < |w'.bakers| && PastPlacing(w'.bakers[b].phase) ==>
                 Published(w'.root, w'.bakers[b].plan)
  {
    RunKeepsInv(w, first, w.root.current);
    RunKeepsInv(After(w, first), second, w.root.current);
    DoneIsPublished(After(After(w, first), second), w.root.current);
  }

  lemma DoneIsPublished(w: World, initial: Option<Blob>)
    requires Inv(w, initial)
    ensures forall b :: 0 <= b < |w.bakers| && PastPlacing(w.bakers[b].phase) ==> Published(w.root, w.bakers[b].plan)
  {
    forall b | 0 <= b < |w.bakers| && PastPlacing(w.bakers[b].phase)
      ensures Published(w.root, w.bakers[b].plan)
    {
      assert BakerOk(w.root, w.bakers[b], b);
    }
  }

  ghost predicate PastPlacing(p: Phase) {
    p.ReplacingPointer? || p.Finishing? || p.Done?
  }

  /** `CURRENT`, if present, names a pack whose metadata records that very manifest, for
      whatever way of reading a manifest out of metadata. */
  ghost predicate CurrentIsGood(root: Root, recorded: Blob -> Option<Blob>) {
    root.current.None?
    || exists m, files ::
         && root.current == Some(m + NEWLINE) && m in root.packs && root.packs[m] == Directory(files)
         && METADATA in files && recorded(files[METADATA]) == Some(m)
  }

  /** Once good, `CURRENT` stays good at every point of every run of bakes whose metadata
      records their manifest; in particular on a root that starts without `CURRENT`. */
  lemma CurrentRecordsItsManifest(w: World, schedule: seq<Event>, recorded: Blob -> Option<Blob>)
    requires Initial(w) && Runs(w, schedule) && CurrentIsGood(w.root, recorded)
    requires forall b :: 0 <= b < |w.bakers| ==> recorded(w.bakers[b].plan.metadata) == Some(w.bakers[b].plan.manifest)
    ensures CurrentIsGood(After(w, schedule).root, recorded)
  {
    RunKeepsInv(w, schedule, w.root.current);
    var w' := After(w, schedule);
    if w'.root.current != w.root.current {
      var b :| 0 <= b < |w'.bakers| && w'.root.current == Some(w'.bakers[b].plan.PointerText())
               && Published(w'.root, w'.bakers[b].plan);
      TreeHasMetadata(w'.bakers[b].plan);
      assert w'.bakers[b].plan == w.bakers[b].plan;
    } else if w.root.current.Some? {
      var m, files :| w.root.current == Some(m + NEWLINE) && m in w.root.packs && w.root.packs[m] == Directory(files)
                      && METADATA in files && recorded(files[METADATA]) == Some(m);
      assert w'.root.packs[m] == Directory(files);
    }
  }

  /** A bake whose manifest is already taken by a pack with other bytes can never finish,
      and can never get as far as replacing `CURRENT`. */
  lemma CollisionNeverPublishes(w: World, first: seq<Event>, second: seq<Event>, b: nat, taken: Entry)
    requires Initial(w) && Runs(w, first) && Runs(After(w, first), second) && b < |w.bakers|
    requires var root := After(w, first).root;
             var m := w.bakers[b].plan.manifest;
             m in root.packs && root.packs[m] == taken
    requires taken != Directory(map[]) && taken != Directory(w.bakers[b].plan.Tree())
    ensures var w' := After(After(w, first), second);
            && |w'.bakers| == |w.bakers|
            && w.bakers[b].plan.manifest in w'.root.packs && w'.root.packs[w.bakers[b].plan.manifest] == taken
            && !PastPlacing(w'.bakers[b].phase)
  {
    RunKeepsInv(w, first, w.root.current);
    RunKeepsInv(After(w, first), second, w.root.current);
    DoneIsPublished(After(After(w, first), second), w.root.current);
  }
}
