/**
 Publishing a content pack.  A bake writes its files into a private temporary directory,
 renames that directory to `packs/<manifest>`, and then replaces the `CURRENT` pointer
 file.  Any number of bakes share one output root, their steps interleave freely, any step
 may fail, and a bake that is stopped simply takes no further step.
 */
module Publication {
  import opened Bytes

  type Name = string
  type Tree = map<Name, Blob>

  const METADATA: Name := "pack.json"
  const NEWLINE: Blob := [10]

  /** What a path below `packs/` can be: a directory of files or something else. */
  datatype Entry = Directory(files: Tree) | NotDirectory

  /** A pointer file and the bake that has it open. */
  datatype Scratch = Scratch(owner: nat, data: Blob)

  datatype Root = Root(
    packs: map<Blob, Entry>,
    temps: map<nat, Tree>,
    pointers: map<nat, Scratch>,
    current: Option<Blob>)

  datatype File = File(name: Name, data: Blob)

  /** A bake that has computed its manifest and rendered its files. */
  datatype Plan = Plan(manifest: Blob, files: seq<File>, metadata: Blob) {
    /** The files in the order they are written; the metadata comes last. */
    function Writes(): seq<File> {
      files + [File(METADATA, metadata)]
    }

    function Tree(): Tree {
      TreeAfter(Writes(), |Writes()|)
    }

    function PointerText(): Blob {
      manifest + NEWLINE
    }
  }

  /** The directory contents once the first n files are written. */
  function TreeAfter(writes: seq<File>, n: nat): Tree
    requires n <= |writes|
  {
    if n == 0 then map[] else TreeAfter(writes, n - 1)[writes[n - 1].name := writes[n - 1].data]
  }

  /** Where a bake is.  Every phase after the first carries the temporary directory its
      error handler would remove. */
  datatype Phase =
    | Starting
    | Writing(temp: nat, next: nat)
    | Written(temp: nat)
    | Comparing(temp: nat)
    | Renaming(temp: nat)
    | Discarding(temp: nat)
    | Pointing(temp: nat)
    | WritingPointer(temp: nat, pointer: nat)
    | ReplacingPointer(temp: nat, pointer: nat)
    | Finishing(temp: nat, pointer: nat)
    | CleaningUp(temp: nat, leftover: Option<nat>)
    | Done
    | Failed

  datatype Baker = Baker(plan: Plan, phase: Phase) {
    function Temp(): Option<nat> {
      if phase.Starting? || phase.Done? || phase.Failed? then None else Some(phase.temp)
    }

    /** The pointer file it writes and will move to `CURRENT`. */
    function Pointer(): Option<nat> {
      if phase.WritingPointer? || phase.ReplacingPointer? then Some(phase.pointer) else None
    }
  }

  datatype World = World(root: Root, bakers: seq<Baker>)

  /** One observable effect of a running bake.  A file or pointer may be seen with any
      prefix of its data while it is being written; a directory tree is removed file by
      file; `Raise` is an exception at any point. */
  datatype Action =
    | MakeTemp(t: nat)
    | WritePrefix(length: nat)
    | FinishWrite
    | TestFinal
    | Compare
    | Rename
    | RemoveFile(name: Name)
    | RemoveDirectory
    | MakePointer(p: nat)
    | PointerPrefix(length: nat)
    | FinishPointer
    | ReplaceCurrent
    | Finish
    | Raise
    | UnlinkPointer
    | GiveUp(removed: bool)

  /** `os.replace` of a directory succeeds onto nothing or onto an empty directory. */
  predicate CanRenameOnto(packs: map<Blob, Entry>, m: Blob) {
    m !in packs || packs[m] == Directory(map[])
  }

  /** What the program and the file system allow. */
  predicate Possible(w: World, b: nat, a: Action) {
    && b < |w.bakers|
    && var p := w.bakers[b].phase;
       var plan := w.bakers[b].plan;
       match a
       case MakeTemp(t) => p.Starting? && t !in w.root.temps
       case WritePrefix(n) =>
         && p.Writing? && p.next < |plan.Writes()| && n <= |plan.Writes()[p.next].data|
         && p.temp in w.root.temps
       case FinishWrite => p.Writing? && p.next < |plan.Writes()| && p.temp in w.root.temps
       case TestFinal => p.Written?
       case Compare => p.Comparing? && p.temp in w.root.temps
       case Rename => p.Renaming? && p.temp in w.root.temps
       case RemoveFile(_) => (p.Discarding? || p.CleaningUp?) && p.temp in w.root.temps
       case RemoveDirectory => p.Discarding? && p.temp in w.root.temps && w.root.temps[p.temp] == map[]
       case MakePointer(q) => p.Pointing? && q !in w.root.pointers
       case PointerPrefix(n) => p.WritingPointer? && n <= |plan.PointerText()|
       case FinishPointer => p.WritingPointer?
       case ReplaceCurrent => p.ReplacingPointer? && p.pointer in w.root.pointers
       case Finish => p.Finishing?
       case Raise => !p.Done? && !p.Failed? && !p.CleaningUp?
       case UnlinkPointer => p.CleaningUp? && p.leftover.Some?
       case GiveUp(_) => p.CleaningUp?
  }

  /** `mkdtemp` also never returns a name that an unfinished bake still holds, even after its
      directory has moved away, and `mkstemp` never one that a bake is about to move to
      `CURRENT`, even after that file was deleted. */
  predicate Enabled(w: World, b: nat, a: Action) {
    && Possible(w, b, a)
    && (a.MakeTemp? ==> TempUnheld(w, a.t))
    && (a.MakePointer? ==> PointerUnheld(w, a.p))
  }

  predicate TempUnheld(w: World, t: nat) {
    forall c :: 0 <= c < |w.bakers| ==> w.bakers[c].Temp() != Some(t)
  }

  predicate PointerUnheld(w: World, q: nat) {
    forall c :: 0 <= c < |w.bakers| ==> w.bakers[c].Pointer() != Some(q)
  }

  /** Writing through an open file: one that was deleted does not come back, and another file
      that has its name now is not touched. */
  function Overwritten(pointers: map<nat, Scratch>, q: nat, me: nat, data: Blob): map<nat, Scratch> {
    if q in pointers && pointers[q].owner == me then pointers[q := Scratch(me, data)] else pointers
  }

  /** The effect of an action on the file tree and on the acting bake. */
  function Effect(root: Root, me: nat, plan: Plan, p: Phase, a: Action): (Root, Phase)
    requires a.WritePrefix? || a.FinishWrite? ==>
               p.Writing? && p.next < |plan.Writes()| && p.temp in root.temps
    requires a.WritePrefix? ==> a.length <= |plan.Writes()[p.next].data|
    requires a.TestFinal? ==> p.Written?
    requires a.Compare? ==> p.Comparing? && p.temp in root.temps
    requires a.Rename? ==> p.Renaming? && p.temp in root.temps
    requires a.RemoveFile? ==> (p.Discarding? || p.CleaningUp?) && p.temp in root.temps
    requires a.RemoveDirectory? ==> p.Discarding? && p.temp in root.temps
    requires a.MakePointer? ==> p.Pointing?
    requires a.PointerPrefix? ==> p.WritingPointer? && a.length <= |plan.PointerText()|
    requires a.FinishPointer? ==> p.WritingPointer?
    requires a.ReplaceCurrent? ==> p.ReplacingPointer? && p.pointer in root.pointers
    requires a.Finish? ==> p.Finishing?
    requires a.Raise? ==> !p.Done? && !p.Failed? && !p.CleaningUp?
    requires a.UnlinkPointer? ==> p.CleaningUp? && p.leftover.Some?
    requires a.GiveUp? ==> p.CleaningUp?
  {
    match a
    case MakeTemp(t) =>
      (root.(temps := root.temps[t := map[]]), Writing(t, 0))
    case WritePrefix(n) =>
      var f := plan.Writes()[p.next];
      (root.(temps := root.temps[p.temp := root.temps[p.temp][f.name := f.data[..n]]]), p)
    case FinishWrite =>
      var f := plan.Writes()[p.next];
      (root.(temps := root.temps[p.temp := root.temps[p.temp][f.name := f.data]]),
       if p.next + 1 == |plan.Writes()| then Written(p.temp) else Writing(p.temp, p.next + 1))
    case TestFinal =>
      (root, if plan.manifest in root.packs then Comparing(p.temp) else Renaming(p.temp))
    case Compare =>
      var same := plan.manifest in root.packs && root.packs[plan.manifest] == Directory(root.temps[p.temp]);
      (root, if same then Discarding(p.temp) else CleaningUp(p.temp, None))
    case Rename =>
      if CanRenameOnto(root.packs, plan.manifest) then
        (root.(packs := root.packs[plan.manifest := Directory(root.temps[p.temp])], temps := root.temps - {p.temp}),
         Pointing(p.temp))
      else (root, CleaningUp(p.temp, None))
    case RemoveFile(name) =>
      (root.(temps := root.temps[p.temp := root.temps[p.temp] - {name}]), p)
    case RemoveDirectory =>
      (root.(temps := root.temps - {p.temp}), Pointing(p.temp))
    case MakePointer(q) =>
      (root.(pointers := root.pointers[q := Scratch(me, [])]), WritingPointer(p.temp, q))
    case PointerPrefix(n) =>
      (root.(pointers := Overwritten(root.pointers, p.pointer, me, plan.PointerText()[..n])), p)
    case FinishPointer =>
      (root.(pointers := Overwritten(root.pointers, p.pointer, me, plan.PointerText())),
       ReplacingPointer(p.temp, p.pointer))
    case ReplaceCurrent =>
      (root.(current := Some(root.pointers[p.pointer].data), pointers := root.pointers - {p.pointer}),
       Finishing(p.temp, p.pointer))
    case Finish =>
      (root.(pointers := root.pointers - {p.pointer}), Done)
    case Raise =>
      (root, if p.Starting? then Failed
             else CleaningUp(p.temp, if p.WritingPointer? || p.ReplacingPointer? then Some(p.pointer) else None))
    case UnlinkPointer =>
      (root.(pointers := root.pointers - {p.leftover.value}), CleaningUp(p.temp, None))
    case GiveUp(removed) =>
      (if removed then root.(temps := root.temps - {p.temp}) else root, Failed)
  }

  function Step(w: World, b: nat, a: Action): World
    requires Possible(w, b, a)
  {
    var (root, phase) := Effect(w.root, b, w.bakers[b].plan, w.bakers[b].phase, a);
    World(root, w.bakers[b := w.bakers[b].(phase := phase)])
  }

  datatype Event = Event(baker: nat, action: Action)

  /** The worlds a schedule passes through: every event is enabled when it happens. */
  predicate Runs(w: World, schedule: seq<Event>)
    decreases |schedule|
  {
    schedule == [] ||
    (Enabled(w, schedule[0].baker, schedule[0].action)
     && Runs(Step(w, schedule[0].baker, schedule[0].action), schedule[1..]))
  }

  function After(w: World, schedule: seq<Event>): World
    requires Runs(w, schedule)
    decreases |schedule|
  {
    if schedule == [] then w
    else After(Step(w, schedule[0].baker, schedule[0].action), schedule[1..])
  }
}
