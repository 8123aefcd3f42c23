/**
 The two directory stores: DirCache (src/autocert/cache.go) and the files behind FileDatabase
 (src/filedb.go). Each call hands its file operations to a goroutine and waits for it or for the
 cancellation of its context; here every system call is one step, and the steps of all the calls
 interleave freely.
 */
module FileStore {
  import opened Wrappers

  /** A directory entry: the file of a key, or the temporary file of a Put. Temporary names are never reused. */
  datatype Name = Final(key: string) | Temp(p: nat)

  /** Where the goroutine of a Put is. `renamed` is whether the rename happened, `left` whether the temporary file stayed. */
  datatype PutPhase =
    | Starting
    | Writing(n: nat)
    | Checking
    | Renaming
    | Removing(failed: bool, renamed: bool)
    | Finished(failed: bool, renamed: bool, left: bool)

  datatype PutResult = PutOk | PutFailed | PutCancelled

  datatype Put = Put(key: string, data: string, cancelled: bool, phase: PutPhase, result: Option<PutResult>)

  datatype ReadOutcome = Complete(data: string) | Absent | Broken

  /** Where the goroutine of a Get is; `inode` is the opened file and `sofar` what was read of it. */
  datatype GetPhase = Opening | Reading(inode: nat, sofar: string) | Ended(outcome: ReadOutcome)

  datatype GetResult = Found(data: string) | Miss | GetFailed | GetCancelled

  datatype Get = Get(key: string, cancelled: bool, phase: GetPhase, result: Option<GetResult>)

  datatype Delete = Delete(key: string, done: bool)

  /** The file that Put number p creates has inode p. */
  datatype World = World(
    dir: map<Name, nat>,
    files: map<nat, string>,
    puts: map<nat, Put>,
    gets: map<nat, Get>,
    deletes: map<nat, Delete>)

  /** `removes` is true of DirCache, which removes its temporary file, and false of FileDatabase, which does not. */
  datatype Store = Store(removes: bool)

  datatype Step =
    | StartPut(p: nat, key: string, data: string)
    | Create(p: nat, ok: bool)
    | WriteMore(p: nat, m: nat)
    | WriteFails(p: nat)
    | Close(p: nat, ok: bool)
    | Check(p: nat)
    | Rename(p: nat, ok: bool)
    | RemoveTemp(p: nat, ok: bool)
    | CancelPut(p: nat)
    | ReturnPut(p: nat, onCancel: bool)
    | StartGet(g: nat, key: string)
    | Open(g: nat, ok: bool)
    | ReadMore(g: nat, m: nat)
    | ReadFails(g: nat)
    | ReadEnd(g: nat)
    | CancelGet(g: nat)
    | ReturnGet(g: nat, onCancel: bool)
    | StartDelete(d: nat, key: string)
    | Unlink(d: nat, ok: bool)

  function Start(): World {
    World(map[], map[], map[], map[], map[])
  }

  function PutOf(s: Step): Option<nat> {
    match s
    case Create(p, _) => Some(p)
    case WriteMore(p, _) => Some(p)
    case WriteFails(p) => Some(p)
    case Close(p, _) => Some(p)
    case Check(p) => Some(p)
    case Rename(p, _) => Some(p)
    case RemoveTemp(p, _) => Some(p)
    case CancelPut(p) => Some(p)
    case ReturnPut(p, _) => Some(p)
    case _ => None
  }

  predicate PutEnabled(put: Put, s: Step) {
    match s
    case Create(_, _) => put.phase.Starting?
    case WriteMore(_, m) => put.phase.Writing? && put.phase.n < m <= |put.data|
    case WriteFails(_) => put.phase.Writing?
    case Close(_, _) => put.phase.Writing? && put.phase.n == |put.data|
    case Check(_) => put.phase.Checking?
    case Rename(_, _) => put.phase.Renaming?
    case RemoveTemp(_, _) => put.phase.Removing?
    case CancelPut(_) => true
    case ReturnPut(_, onCancel) => put.result.None? && if onCancel then put.cancelled else put.phase.Finished?
    case _ => false
  }

  /** The end of the goroutine once the temporary file exists. */
  function WindUp(store: Store, failed: bool, renamed: bool): PutPhase {
    if store.removes then Removing(failed, renamed) else Finished(failed, renamed, !renamed)
  }

  function PutStep(store: Store, put: Put, s: Step): Put
    requires PutEnabled(put, s)
  {
    match s
    case Create(_, ok) => put.(phase := if ok then Writing(0) else Finished(true, false, false))
    case WriteMore(_, m) => put.(phase := Writing(m))
    case WriteFails(_) => put.(phase := WindUp(store, true, false))
    case Close(_, ok) => put.(phase := if ok then Checking else WindUp(store, true, false))
    case Check(_) => put.(phase := if put.cancelled then WindUp(store, false, false) else Renaming)
    case Rename(_, ok) => put.(phase := WindUp(store, !ok, ok))
    case RemoveTemp(_, ok) => put.(phase := Finished(put.phase.failed, put.phase.renamed, !ok && !put.phase.renamed))
    case CancelPut(_) => put.(cancelled := true)
    case ReturnPut(_, onCancel) =>
      put.(result := Some(if onCancel then PutCancelled else if put.phase.failed then PutFailed else PutOk))
    case _ => put
  }

  function GetOf(s: Step): Option<nat> {
    match s
    case Open(g, _) => Some(g)
    case ReadMore(g, _) => Some(g)
    case ReadFails(g) => Some(g)
    case ReadEnd(g) => Some(g)
    case CancelGet(g) => Some(g)
    case ReturnGet(g, _) => Some(g)
    case _ => None
  }

  predicate GetEnabled(w: World, get: Get, s: Step) {
    match s
    case Open(_, _) => get.phase.Opening?
    case ReadMore(_, m) =>
      get.phase.Reading? && get.phase.inode in w.files && |get.phase.sofar| < m <= |w.files[get.phase.inode]|
    case ReadFails(_) => get.phase.Reading?
    case ReadEnd(_) =>
      get.phase.Reading? && get.phase.inode in w.files && |get.phase.sofar| == |w.files[get.phase.inode]|
    case CancelGet(_) => true
    case ReturnGet(_, onCancel) => get.result.None? && if onCancel then get.cancelled else get.phase.Ended?
    case _ => false
  }

  function GetStep(w: World, get: Get, s: Step): Get
    requires GetEnabled(w, get, s)
  {
    match s
    case Open(_, ok) =>
      get.(phase := if Final(get.key) !in w.dir then Ended(Absent)
                    else if ok then Reading(w.dir[Final(get.key)], []) else Ended(Broken))
    case ReadMore(_, m) =>
      get.(phase := get.phase.(sofar := get.phase.sofar + w.files[get.phase.inode][|get.phase.sofar|..m]))
    case ReadFails(_) => get.(phase := Ended(Broken))
    case ReadEnd(_) => get.(phase := Ended(Complete(get.phase.sofar)))
    case CancelGet(_) => get.(cancelled := true)
    case ReturnGet(_, onCancel) =>
      get.(result := Some(if onCancel then GetCancelled else
                            match get.phase.outcome
                            case Complete(data) => Found(data)
                            case Absent => Miss
                            case Broken => GetFailed))
    case _ => get
  }

  /** What a step does to the directory. */
  function DirAfter(w: World, s: Step): map<Name, nat> {
    match s
    case Create(p, ok) => if ok then w.dir[Temp(p) := p] else w.dir
    case Rename(p, ok) =>
      if ok && p in w.puts && Temp(p) in w.dir then (w.dir - {Temp(p)})[Final(w.puts[p].key) := w.dir[Temp(p)]] else w.dir
    case RemoveTemp(p, ok) => if ok then w.dir - {Temp(p)} else w.dir
    case Unlink(d, ok) => if ok && d in w.deletes then w.dir - {Final(w.deletes[d].key)} else w.dir
    case _ => w.dir
  }

  function FilesAfter(w: World, s: Step): map<nat, string> {
    match s
    case Create(p, ok) => if ok then w.files[p := []] else w.files
    case WriteMore(p, m) => if p in w.puts && m <= |w.puts[p].data| then w.files[p := w.puts[p].data[..m]] else w.files
    case _ => w.files
  }

  predicate Enabled(w: World, s: Step) {
    match s
    case StartPut(p, _, _) => p !in w.puts
    case StartGet(g, _) => g !in w.gets
    case StartDelete(d, _) => d !in w.deletes
    case Unlink(d, _) => d in w.deletes && !w.deletes[d].done
    case _ =>
      if PutOf(s).Some? then PutOf(s).value in w.puts && PutEnabled(w.puts[PutOf(s).value], s)
      else GetOf(s).Some? && GetOf(s).value in w.gets && GetEnabled(w, w.gets[GetOf(s).value], s)
  }

  function PutsAfter(store: Store, w: World, s: Step): map<nat, Put>
    requires Enabled(w, s)
  {
    if s.StartPut? then w.puts[s.p := Put(s.key, s.data, false, Starting, None)]
    else if PutOf(s).Some? then w.puts[PutOf(s).value := PutStep(store, w.puts[PutOf(s).value], s)]
    else w.puts
  }

  function GetsAfter(w: World, s: Step): map<nat, Get>
    requires Enabled(w, s)
  {
    if s.StartGet? then w.gets[s.g := Get(s.key, false, Opening, None)]
    else if GetOf(s).Some? then w.gets[GetOf(s).value := GetStep(w, w.gets[GetOf(s).value], s)]
    else w.gets
  }

  function DeletesAfter(w: World, s: Step): map<nat, Delete>
    requires Enabled(w, s)
  {
    if s.StartDelete? then w.deletes[s.d := Delete(s.key, false)]
    else if s.Unlink? then w.deletes[s.d := w.deletes[s.d].(done := true)]
    else w.deletes
  }

  function Apply(store: Store, w: World, s: Step): World
    requires Enabled(w, s)
  {
    World(DirAfter(w, s), FilesAfter(w, s), PutsAfter(store, w, s), GetsAfter(w, s), DeletesAfter(w, s))
  }

  ghost predicate IsRun(store: Store, ws: seq<World>, ss: seq<Step>) {
    && |ws| == |ss| + 1
    && ws[0] == Start()
    && forall i :: 0 <= i < |ss| ==> Enabled(ws[i], ss[i]) && ws[i + 1] == Apply(store, ws[i], ss[i])
  }

  // ---- what the directory holds ----

  predicate Renamed(put: Put) {
    (put.phase.Removing? || put.phase.Finished?) && put.phase.renamed
  }

  /** The temporary file of the Put is in the directory. */
  predicate HasTemp(put: Put) {
    match put.phase
    case Starting => false
    case Writing(_) => true
    case Checking => true
    case Renaming => true
    case Removing(_, renamed) => !renamed
    case Finished(_, _, left) => left
  }

  /** What the file of the Put holds, as far as it is determined. */
  predicate FileFits(w: World, p: nat)
    requires p in w.puts
  {
    var put := w.puts[p];
    match put.phase
    case Writing(n) => n <= |put.data| && p in w.files && w.files[p] == put.data[..n]
    case Checking => p in w.files && w.files[p] == put.data
    case Renaming => p in w.files && w.files[p] == put.data
    case _ => Renamed(put) ==> p in w.files && w.files[p] == put.data
  }

  predicate PutFits(w: World, p: nat)
    requires p in w.puts
  {
    && FileFits(w, p)
    && (HasTemp(w.puts[p]) <==> Temp(p) in w.dir)
    && (w.puts[p].phase.Finished? && w.puts[p].phase.left ==> !w.puts[p].phase.renamed)
  }

  ghost predicate PutsFit(w: World) {
    forall p :: p in w.puts ==> PutFits(w, p)
  }

  ghost predicate TempsOwned(w: World) {
    forall p :: Temp(p) in w.dir ==> w.dir[Temp(p)] == p && p in w.puts
  }

  /** Under a key lies the finished file of a Put of that key. */
  ghost predicate FinalsComplete(w: World) {
    forall k :: Final(k) in w.dir ==>
      var p := w.dir[Final(k)];
      p in w.puts && w.puts[p].key == k && Renamed(w.puts[p])
  }

  ghost predicate Inv(w: World) {
    PutsFit(w) && TempsOwned(w) && FinalsComplete(w)
  }

  lemma OthersKeepPhase(store: Store, w: World, s: Step, p: nat)
    requires Enabled(w, s) && p in w.puts && PutOf(s) != Some(p)
    ensures p in PutsAfter(store, w, s) && PutsAfter(store, w, s)[p] == w.puts[p]
  {
  }

  lemma OthersKeepEntry(w: World, s: Step, p: nat)
    requires Enabled(w, s) && p in w.puts && PutOf(s) != Some(p)
    ensures Temp(p) in DirAfter(w, s) <==> Temp(p) in w.dir
  {
  }

  lemma OthersKeepFile(w: World, s: Step, p: nat)
    requires Enabled(w, s) && PutOf(s) != Some(p) && p in w.files
    ensures p in FilesAfter(w, s) && FilesAfter(w, s)[p] == w.files[p]
  {
  }

  /** The step of another call leaves the files of a Put alone. */
  lemma OthersKeepPut(store: Store, w: World, s: Step, p: nat, w': World)
    requires Inv(w) && Enabled(w, s) && p in w.puts && PutOf(s) != Some(p) && w' == Apply(store, w, s)
    ensures p in w'.puts && PutFits(w', p)
  {
    assert PutFits(w, p);
    OthersKeepPhase(store, w, s, p);
    OthersKeepEntry(w, s, p);
    if p in w.files {
      OthersKeepFile(w, s, p);
    }
  }

  lemma OwnStepKeepsPut(store: Store, w: World, s: Step, p: nat)
    requires Inv(w) && Enabled(w, s) && p in w.puts && PutOf(s) == Some(p)
    ensures p in Apply(store, w, s).puts && PutFits(Apply(store, w, s), p)
  {
    assert PutFits(w, p);
    var w' := Apply(store, w, s);
    assert w'.puts[p] == PutStep(store, w.puts[p], s);
  }

  lemma StepKeepsPuts(store: Store, w: World, s: Step)
    requires Inv(w) && Enabled(w, s)
    ensures PutsFit(Apply(store, w, s))
  {
    var w' := Apply(store, w, s);
    forall p | p in w'.puts
      ensures PutFits(w', p)
    {
      if PutOf(s) == Some(p) {
        OwnStepKeepsPut(store, w, s, p);
      } else if p in w.puts {
        OthersKeepPut(store, w, s, p, w');
      }
    }
  }

  /** A finished rename is never undone, and no Put changes its key or data. */
  lemma RenamedStays(store: Store, w: World, s: Step, p: nat)
    requires Enabled(w, s) && p in w.puts
    ensures var puts := PutsAfter(store, w, s);
            p in puts && puts[p].key == w.puts[p].key && puts[p].data == w.puts[p].data && (Renamed(w.puts[p]) ==> Renamed(puts[p]))
  {
  }

  lemma StepKeepsTemps(store: Store, w: World, s: Step)
    requires Inv(w) && Enabled(w, s)
    ensures TempsOwned(Apply(store, w, s))
  {
  }

  lemma StepKeepsFinals(store: Store, w: World, s: Step)
    requires Inv(w) && Enabled(w, s)
    ensures FinalsComplete(Apply(store, w, s))
  {
    var w' := Apply(store, w, s);
    forall k | Final(k) in w'.dir
      ensures var p := w'.dir[Final(k)];
              p in w'.puts && w'.puts[p].key == k && Renamed(w'.puts[p])
    {
      if Final(k) in w.dir && w'.dir[Final(k)] == w.dir[Final(k)] {
        RenamedStays(store, w, s, w.dir[Final(k)]);
      } else {
        assert s.Rename? && s.ok;
      }
    }
  }

  lemma {:induction false} RunKeeps(store: Store, ws: seq<World>, ss: seq<Step>, i: nat)
    requires IsRun(store, ws, ss) && i <= |ss|
    ensures Inv(ws[i])
  {
    if i > 0 {
      RunKeeps(store, ws, ss, i - 1);
      StepKeepsPuts(store, ws[i - 1], ss[i - 1]);
      StepKeepsTemps(store, ws[i - 1], ss[i - 1]);
      StepKeepsFinals(store, ws[i - 1], ss[i - 1]);
    }
  }

  // ---- atomic replacement ----

  /** What a reader that opened the file of the key now would read. */
  function Stored(w: World, key: string): Option<string> {
    if Final(key) in w.dir && w.dir[Final(key)] in w.files then Some(w.files[w.dir[Final(key)]]) else None
  }

  /** What a step makes of the stored value of a key. */
  function StoredAfter(w: World, s: Step, key: string): Option<string>
    requires Enabled(w, s)
  {
    match s
    case Rename(p, true) => if w.puts[p].key == key then Some(w.puts[p].data) else Stored(w, key)
    case Unlink(d, true) => if w.deletes[d].key == key then None else Stored(w, key)
    case _ => Stored(w, key)
  }

  lemma RenamedFileKept(w: World, s: Step, p: nat)
    requires Enabled(w, s) && p in w.puts && Renamed(w.puts[p]) && p in w.files
    ensures p in FilesAfter(w, s) && FilesAfter(w, s)[p] == w.files[p]
  {
    if PutOf(s) != Some(p) {
      OthersKeepFile(w, s, p);
    }
  }

  lemma EntryAfter(w: World, s: Step, key: string)
    requires Enabled(w, s) && (s.Rename? ==> s.ok ==> Temp(s.p) in w.dir && w.dir[Temp(s.p)] == s.p)
    ensures var dir := DirAfter(w, s);
            match s
            case Rename(p, true) =>
              if w.puts[p].key == key then Final(key) in dir && dir[Final(key)] == p
              else (Final(key) in dir <==> Final(key) in w.dir) && (Final(key) in dir ==> dir[Final(key)] == w.dir[Final(key)])
            case Unlink(d, true) =>
              if w.deletes[d].key == key then Final(key) !in dir
              else (Final(key) in dir <==> Final(key) in w.dir) && (Final(key) in dir ==> dir[Final(key)] == w.dir[Final(key)])
            case _ =>
              (Final(key) in dir <==> Final(key) in w.dir) && (Final(key) in dir ==> dir[Final(key)] == w.dir[Final(key)])
  {
  }

  lemma StoredStep(store: Store, w: World, s: Step, key: string)
    requires Inv(w) && Enabled(w, s)
    ensures Stored(Apply(store, w, s), key) == StoredAfter(w, s, key)
  {
    if s.Rename? {
      assert PutFits(w, s.p);
    }
    EntryAfter(w, s, key);
    if Final(key) in w.dir {
      assert PutFits(w, w.dir[Final(key)]);
      RenamedFileKept(w, s, w.dir[Final(key)]);
    }
  }

  /**
   The stored value of a key changes only in the rename of a Put of the key, to its whole data,
   and in the removal by a Delete of the key. So whatever happens to a Put, its key holds the old
   value or the new one.
   */
  lemma StoredChangesAtOnce(store: Store, ws: seq<World>, ss: seq<Step>, i: nat, key: string)
    requires IsRun(store, ws, ss) && i < |ss|
    ensures var s := ss[i];
            && (s.Rename? ==> s.p in ws[i].puts) && (s.Unlink? ==> s.d in ws[i].deletes)
            && Stored(ws[i + 1], key) ==
               if s.Rename? && s.ok && ws[i].puts[s.p].key == key then Some(ws[i].puts[s.p].data)
               else if s.Unlink? && s.ok && ws[i].deletes[s.d].key == key then None
               else Stored(ws[i], key)
  {
    RunKeeps(store, ws, ss, i);
    StoredStep(store, ws[i], ss[i], key);
  }

  /** A run can go on with any enabled step. */
  lemma RunExtends(store: Store, ws: seq<World>, ss: seq<Step>, s: Step)
    requires IsRun(store, ws, ss) && Enabled(ws[|ss|], s)
    ensures IsRun(store, ws + [Apply(store, ws[|ss|], s)], ss + [s])
  {
    var ws', ss' := ws + [Apply(store, ws[|ss|], s)], ss + [s];
    forall i | 0 <= i < |ss'|
      ensures Enabled(ws'[i], ss'[i]) && ws'[i + 1] == Apply(store, ws'[i], ss'[i])
    {
      if i < |ss| {
        assert ws'[i] == ws[i] && ws'[i + 1] == ws[i + 1] && ss'[i] == ss[i];
      }
    }
  }

  /** A Put whose context is cancelled before its check never renames, so it never changes what is stored. */
  predicate Stopped(put: Put) {
    && put.cancelled
    && !put.phase.Renaming? && !Renamed(put)
  }

  lemma {:induction false} CancelledEarlyNeverStores(store: Store, ws: seq<World>, ss: seq<Step>, p: nat, i: nat, k: nat)
    requires IsRun(store, ws, ss) && i <= k <= |ss|
    requires p in ws[i].puts && Stopped(ws[i].puts[p])
    ensures p in ws[k].puts && Stopped(ws[k].puts[p])
    ensures k < |ss| ==> !(ss[k].Rename? && ss[k].p == p)
  {
    if i < k {
      CancelledEarlyNeverStores(store, ws, ss, p, i, k - 1);
    }
  }

  // ---- readers ----

  /** What a Get knows was true of its key at some moment since it began at step j. */
  ghost predicate Witnessed(ws: seq<World>, get: Get, j: nat, k: nat)
    requires j <= k < |ws|
  {
    && match get.phase
       case Opening => true
       case Reading(inode, sofar) =>
         inode in ws[k].puts && Renamed(ws[k].puts[inode]) && sofar <= ws[k].puts[inode].data
         && HeldAt(ws, get.key, Some(ws[k].puts[inode].data), j, k)
       case Ended(Complete(data)) => HeldAt(ws, get.key, Some(data), j, k)
       case Ended(Absent) => HeldAt(ws, get.key, None, j, k)
       case Ended(Broken) => true
  }

  ghost predicate HeldAt(ws: seq<World>, key: string, value: Option<string>, j: nat, k: nat)
    requires j <= k < |ws|
  {
    exists m :: j <= m <= k && Stored(ws[m], key) == value
  }

  ghost predicate ResultFits(get: Get) {
    match get.result
    case None => true
    case Some(Found(data)) => get.phase == Ended(Complete(data))
    case Some(Miss) => get.phase == Ended(Absent)
    case Some(GetFailed) => get.phase == Ended(Broken)
    case Some(GetCancelled) => get.cancelled
  }

  lemma HeldStays(ws: seq<World>, key: string, value: Option<string>, j: nat, k: nat)
    requires j < k < |ws| && HeldAt(ws, key, value, j, k - 1)
    ensures HeldAt(ws, key, value, j, k)
  {
  }

  lemma GetEvolves(w: World, s: Step, g: nat)
    requires Enabled(w, s) && g in w.gets
    ensures g in GetsAfter(w, s)
    ensures if GetOf(s) == Some(g) then GetEnabled(w, w.gets[g], s) && GetsAfter(w, s)[g] == GetStep(w, w.gets[g], s)
            else GetsAfter(w, s)[g] == w.gets[g]
  {
  }

  /** Reading on in a file that holds more than what was read so far. */
  lemma ReadingAdvances(w: World, get: Get, s: Step)
    requires GetEnabled(w, get, s) && get.phase.Reading? && get.phase.inode in w.files
    requires get.phase.sofar <= w.files[get.phase.inode]
    ensures GetStep(w, get, s).key == get.key
    ensures match GetStep(w, get, s).phase
            case Opening => false
            case Reading(p, sofar) => p == get.phase.inode && sofar <= w.files[p]
            case Ended(outcome) => outcome == Complete(w.files[get.phase.inode]) || outcome == Broken
  {
  }

  /** What a reader has open is not touched by any step, and read bit by bit it is the whole data. */
  lemma ReaderStep(store: Store, w: World, s: Step, g: nat)
    requires Inv(w) && Enabled(w, s) && g in w.gets && w.gets[g].phase.Reading?
    requires var phase := w.gets[g].phase;
             phase.inode in w.puts && Renamed(w.puts[phase.inode]) && phase.sofar <= w.puts[phase.inode].data
    ensures g in Apply(store, w, s).gets
    ensures var p := w.gets[g].phase.inode;
            var data := w.puts[p].data;
            var w' := Apply(store, w, s);
            && p in w'.puts && Renamed(w'.puts[p]) && w'.puts[p].data == data && w'.gets[g].key == w.gets[g].key
            && match w'.gets[g].phase
               case Opening => false
               case Reading(p', sofar) => p' == p && sofar <= data
               case Ended(outcome) => outcome == Complete(data) || outcome == Broken
  {
    var p := w.gets[g].phase.inode;
    assert PutFits(w, p);
    RenamedStays(store, w, s, p);
    GetEvolves(w, s, g);
    if GetOf(s) == Some(g) {
      ReadingAdvances(w, w.gets[g], s);
    }
  }

  lemma ReaderWitness(store: Store, ws: seq<World>, ss: seq<Step>, g: nat, j: nat, k: nat)
    requires IsRun(store, ws, ss) && j < k <= |ss| && Inv(ws[k - 1])
    requires g in ws[k - 1].gets && Witnessed(ws, ws[k - 1].gets[g], j, k - 1) && ws[k - 1].gets[g].phase.Reading?
    ensures g in ws[k].gets && Witnessed(ws, ws[k].gets[g], j, k)
  {
    var get := ws[k - 1].gets[g];
    ReaderStep(store, ws[k - 1], ss[k - 1], g);
    HeldStays(ws, get.key, Some(ws[k - 1].puts[get.phase.inode].data), j, k);
  }

  lemma GetWitness(store: Store, ws: seq<World>, ss: seq<Step>, g: nat, j: nat, k: nat)
    requires IsRun(store, ws, ss) && j < k <= |ss| && Inv(ws[k - 1])
    requires g in ws[k - 1].gets && Witnessed(ws, ws[k - 1].gets[g], j, k - 1) && !ws[k - 1].gets[g].phase.Reading?
    ensures g in ws[k].gets && Witnessed(ws, ws[k].gets[g], j, k)
  {
    var get := ws[k - 1].gets[g];
    if get.phase.Opening? && ss[k - 1].Open? && ss[k - 1].g == g {
      assert HeldAt(ws, get.key, Stored(ws[k - 1], get.key), j, k);
      if Final(get.key) in ws[k - 1].dir {
        assert PutFits(ws[k - 1], ws[k - 1].dir[Final(get.key)]);
      }
    } else if get.phase.Ended? && get.phase.outcome.Complete? {
      HeldStays(ws, get.key, Some(get.phase.outcome.data), j, k);
    } else if get.phase.Ended? && get.phase.outcome.Absent? {
      HeldStays(ws, get.key, None, j, k);
    }
  }

  lemma ResultStep(store: Store, w: World, s: Step, g: nat)
    requires Enabled(w, s) && g in w.gets && ResultFits(w.gets[g])
    ensures g in Apply(store, w, s).gets && ResultFits(Apply(store, w, s).gets[g])
    ensures Apply(store, w, s).gets[g].key == w.gets[g].key
  {
  }

  lemma GetKeeps(store: Store, ws: seq<World>, ss: seq<Step>, g: nat, j: nat, k: nat)
    requires IsRun(store, ws, ss) && j < k <= |ss|
    requires g in ws[k - 1].gets && Witnessed(ws, ws[k - 1].gets[g], j, k - 1)
    ensures g in ws[k].gets && Witnessed(ws, ws[k].gets[g], j, k)
  {
    RunKeeps(store, ws, ss, k - 1);
    if ws[k - 1].gets[g].phase.Reading? {
      ReaderWitness(store, ws, ss, g, j, k);
    } else {
      GetWitness(store, ws, ss, g, j, k);
    }
  }

  lemma {:induction false} GetsAreWitnessed(store: Store, ws: seq<World>, ss: seq<Step>, j: nat, k: nat)
    requires IsRun(store, ws, ss) && j < k <= |ss| && ss[j].StartGet?
    ensures var g := ss[j].g;
            g in ws[k].gets && Witnessed(ws, ws[k].gets[g], j, k) && ResultFits(ws[k].gets[g]) && ws[k].gets[g].key == ss[j].key
  {
    if j < k - 1 {
      GetsAreWitnessed(store, ws, ss, j, k - 1);
      ResultStep(store, ws[k - 1], ss[k - 1], ss[j].g);
      GetKeeps(store, ws, ss, ss[j].g, j, k);
    }
  }

  /**
   A reader sees a miss, a cancellation, a reported error, or the whole value that was stored
   under its key at some moment while it ran; and a miss only if at some such moment there was
   nothing.
   */
  lemma ReadsAreAtomic(store: Store, ws: seq<World>, ss: seq<Step>, j: nat, k: nat)
    requires IsRun(store, ws, ss) && j < k <= |ss| && ss[j].StartGet?
    ensures ss[j].g in ws[k].gets
    ensures var r := ws[k].gets[ss[j].g].result;
            && (r.Some? && r.value.Found? ==> HeldAt(ws, ss[j].key, Some(r.value.data), j, k))
            && (r.Some? && r.value.Miss? ==> HeldAt(ws, ss[j].key, None, j, k))
            && (r.Some? && r.value.GetCancelled? ==> ws[k].gets[ss[j].g].cancelled)
  {
    GetsAreWitnessed(store, ws, ss, j, k);
  }

  /** What is stored is the whole data of a Put of that key. */
  lemma StoredIsComplete(store: Store, ws: seq<World>, ss: seq<Step>, i: nat, key: string)
    requires IsRun(store, ws, ss) && i <= |ss| && Stored(ws[i], key).Some?
    ensures exists p :: p in ws[i].puts && ws[i].puts[p].key == key && ws[i].puts[p].data == Stored(ws[i], key).value
  {
    RunKeeps(store, ws, ss, i);
    var p := ws[i].dir[Final(key)];
    assert p in ws[i].puts && ws[i].puts[p].key == key && FileFits(ws[i], p);
  }

  // ---- temporary files ----

  ghost predicate Quiet(w: World) {
    forall p :: p in w.puts ==> w.puts[p].phase.Finished?
  }

  /** Some removal of a temporary file failed. */
  ghost predicate RemovalFailed(ss: seq<Step>) {
    exists i :: 0 <= i < |ss| && ss[i].RemoveTemp? && !ss[i].ok
  }

  lemma {:induction false} LeftOnlyByFailure(store: Store, ws: seq<World>, ss: seq<Step>, k: nat, p: nat)
    requires store.removes && IsRun(store, ws, ss) && k <= |ss| && !RemovalFailed(ss)
    requires p in ws[k].puts && ws[k].puts[p].phase.Finished?
    ensures !ws[k].puts[p].phase.left
  {
    if k > 0 && p in ws[k - 1].puts && ws[k - 1].puts[p].phase.Finished? {
      LeftOnlyByFailure(store, ws, ss, k - 1, p);
    }
  }

  /** DirCache leaves no temporary file behind once its Puts are over, unless a removal failed. */
  lemma NoTemporaryFilesLeft(store: Store, ws: seq<World>, ss: seq<Step>, k: nat)
    requires store.removes && IsRun(store, ws, ss) && k <= |ss| && !RemovalFailed(ss) && Quiet(ws[k])
    ensures forall p :: Temp(p) !in ws[k].dir
  {
    RunKeeps(store, ws, ss, k);
    forall p | Temp(p) in ws[k].dir
      ensures false
    {
      LeftOnlyByFailure(store, ws, ss, k, p);
    }
  }

  ghost predicate Happened(ss: seq<Step>, k: nat, s: Step)
    requires k <= |ss|
  {
    exists i :: 0 <= i < k && ss[i] == s
  }

  lemma HappenedStep(ss: seq<Step>, k: nat, s: Step)
    requires 0 < k <= |ss|
    ensures Happened(ss, k, s) <==> Happened(ss, k - 1, s) || ss[k - 1] == s
  {
  }

  lemma {:induction false} NotYet(store: Store, ws: seq<World>, ss: seq<Step>, k: nat, p: nat, s: Step)
    requires IsRun(store, ws, ss) && k <= |ss| && p !in ws[k].puts && PutOf(s) == Some(p)
    ensures !Happened(ss, k, s)
  {
    if k > 0 {
      NotYet(store, ws, ss, k - 1, p, s);
      HappenedStep(ss, k, s);
    }
  }

  lemma PhaseStep(store: Store, put: Put, s: Step)
    requires !store.removes && PutEnabled(put, s)
    requires !put.phase.Removing?
    ensures !PutStep(store, put, s).phase.Removing?
    ensures Renamed(PutStep(store, put, s)) <==> Renamed(put) || (s.Rename? && s.ok)
    ensures HasTemp(PutStep(store, put, s)) || Renamed(PutStep(store, put, s)) <==>
            HasTemp(put) || Renamed(put) || (s.Create? && s.ok)
  {
  }

  lemma PutEvolves(store: Store, w: World, s: Step, p: nat)
    requires Enabled(w, s) && p in Apply(store, w, s).puts
    ensures var put := Apply(store, w, s).puts[p];
            if PutOf(s) == Some(p) then p in w.puts && PutEnabled(w.puts[p], s) && put == PutStep(store, w.puts[p], s)
            else if p in w.puts then put == w.puts[p]
            else put.phase == Starting
  {
  }

  /** The phase of a Put remembers whether it created a file and whether it renamed it. */
  ghost predicate Remembers(ss: seq<Step>, k: nat, p: nat, put: Put)
    requires k <= |ss|
  {
    && !put.phase.Removing?
    && (Happened(ss, k, Rename(p, true)) <==> Renamed(put))
    && (Happened(ss, k, Create(p, true)) <==> HasTemp(put) || Renamed(put))
  }

  lemma RemembersStep(store: Store, ss: seq<Step>, k: nat, w: World, p: nat)
    requires !store.removes && 0 < k <= |ss| && Enabled(w, ss[k - 1]) && p in Apply(store, w, ss[k - 1]).puts
    requires if p in w.puts then Remembers(ss, k - 1, p, w.puts[p])
             else !Happened(ss, k - 1, Rename(p, true)) && !Happened(ss, k - 1, Create(p, true))
    ensures Remembers(ss, k, p, Apply(store, w, ss[k - 1]).puts[p])
  {
    HappenedStep(ss, k, Rename(p, true));
    HappenedStep(ss, k, Create(p, true));
    PutEvolves(store, w, ss[k - 1], p);
    if PutOf(ss[k - 1]) == Some(p) {
      PhaseStep(store, w.puts[p], ss[k - 1]);
    }
  }

  lemma {:induction false} PhaseRemembers(store: Store, ws: seq<World>, ss: seq<Step>, k: nat, p: nat)
    requires !store.removes && IsRun(store, ws, ss) && k <= |ss| && p in ws[k].puts
    ensures Remembers(ss, k, p, ws[k].puts[p])
  {
    if k > 0 {
      if p in ws[k - 1].puts {
        PhaseRemembers(store, ws, ss, k - 1, p);
      } else {
        NotYet(store, ws, ss, k - 1, p, Rename(p, true));
        NotYet(store, ws, ss, k - 1, p, Create(p, true));
      }
      RemembersStep(store, ss, k, ws[k - 1], p);
    }
  }

  /** FileDatabase keeps the temporary file of exactly those Puts that created one and did not rename it. */
  lemma FileDatabaseKeepsUnrenamed(store: Store, ws: seq<World>, ss: seq<Step>, k: nat, p: nat)
    requires !store.removes && IsRun(store, ws, ss) && k <= |ss|
    requires p in ws[k].puts && ws[k].puts[p].phase.Finished?
    ensures Temp(p) in ws[k].dir <==> Happened(ss, k, Create(p, true)) && !Happened(ss, k, Rename(p, true))
  {
    RunKeeps(store, ws, ss, k);
    assert PutFits(ws[k], p);
    PhaseRemembers(store, ws, ss, k, p);
  }

  // ---- what a successful Put means ----

  /** The goroutine has decided to rename, or has done so, or has failed to. */
  predicate Committed(put: Put) {
    match put.phase
    case Renaming => true
    case Removing(failed, renamed) => failed || renamed
    case Finished(failed, renamed, _) => failed || renamed
    case _ => false
  }

  /** A Put reports how its goroutine ended, or that it was cancelled. */
  predicate PutResultFits(put: Put) {
    match put.result
    case None => true
    case Some(PutOk) => put.phase.Finished? && !put.phase.failed
    case Some(PutFailed) => put.phase.Finished? && put.phase.failed
    case Some(PutCancelled) => put.cancelled
  }

  lemma {:induction false} CommittedStays(store: Store, ws: seq<World>, ss: seq<Step>, p: nat, i: nat, k: nat)
    requires IsRun(store, ws, ss) && i <= k <= |ss| && p in ws[i].puts && Committed(ws[i].puts[p])
    ensures p in ws[k].puts && Committed(ws[k].puts[p])
  {
    if i < k {
      CommittedStays(store, ws, ss, p, i, k - 1);
    }
  }

  lemma PutResultStep(store: Store, put: Put, s: Step)
    requires PutEnabled(put, s) && PutResultFits(put)
    ensures PutResultFits(PutStep(store, put, s))
  {
  }

  lemma {:induction false} ResultsComeLast(store: Store, ws: seq<World>, ss: seq<Step>, k: nat, p: nat)
    requires IsRun(store, ws, ss) && k <= |ss| && p in ws[k].puts
    ensures PutResultFits(ws[k].puts[p])
  {
    if k > 0 {
      PutEvolves(store, ws[k - 1], ss[k - 1], p);
      if p in ws[k - 1].puts {
        ResultsComeLast(store, ws, ss, k - 1, p);
        if PutOf(ss[k - 1]) == Some(p) {
          PutResultStep(store, ws[k - 1].puts[p], ss[k - 1]);
        }
      } else {
        assert ss[k - 1] == StartPut(p, ss[k - 1].key, ss[k - 1].data);
      }
    }
  }

  /** The file operations of a Put whose failure it reports. */
  predicate FailsPut(s: Step, p: nat) {
    s == Create(p, false) || s == WriteFails(p) || s == Close(p, false) || s == Rename(p, false)
  }

  ghost predicate SomeFailed(ss: seq<Step>, k: nat, p: nat)
    requires k <= |ss|
  {
    exists i :: 0 <= i < k && FailsPut(ss[i], p)
  }

  lemma SomeFailedStep(ss: seq<Step>, k: nat, p: nat)
    requires 0 < k <= |ss|
    ensures SomeFailed(ss, k, p) <==> SomeFailed(ss, k - 1, p) || FailsPut(ss[k - 1], p)
  {
  }

  predicate Failed(put: Put) {
    (put.phase.Removing? || put.phase.Finished?) && put.phase.failed
  }

  lemma FailureStep(store: Store, put: Put, s: Step, p: nat)
    requires PutEnabled(put, s) && PutOf(s) == Some(p)
    ensures Failed(PutStep(store, put, s)) <==> Failed(put) || FailsPut(s, p)
    ensures Renamed(PutStep(store, put, s)) <==> Renamed(put) || s == Rename(p, true)
  {
  }

  lemma {:induction false} NoFailureYet(store: Store, ws: seq<World>, ss: seq<Step>, k: nat, p: nat)
    requires IsRun(store, ws, ss) && k <= |ss| && p !in ws[k].puts
    ensures !SomeFailed(ss, k, p)
  {
    if k > 0 {
      NoFailureYet(store, ws, ss, k - 1, p);
      SomeFailedStep(ss, k, p);
    }
  }

  ghost predicate EndsAs(ss: seq<Step>, k: nat, p: nat, put: Put)
    requires k <= |ss|
  {
    (Failed(put) <==> SomeFailed(ss, k, p)) && (Renamed(put) <==> Happened(ss, k, Rename(p, true)))
  }

  lemma EndsAsStep(store: Store, ss: seq<Step>, k: nat, w: World, p: nat)
    requires 0 < k <= |ss| && Enabled(w, ss[k - 1]) && p in PutsAfter(store, w, ss[k - 1])
    requires if p in w.puts then EndsAs(ss, k - 1, p, w.puts[p])
             else !SomeFailed(ss, k - 1, p) && !Happened(ss, k - 1, Rename(p, true))
    ensures EndsAs(ss, k, p, PutsAfter(store, w, ss[k - 1])[p])
  {
    SomeFailedStep(ss, k, p);
    HappenedStep(ss, k, Rename(p, true));
    if PutOf(ss[k - 1]) == Some(p) {
      FailureStep(store, w.puts[p], ss[k - 1], p);
    }
  }

  /** The goroutine of a Put ends with an error exactly if one of these operations failed, and renamed exactly if that worked. */
  lemma {:induction false} PutEndsAsItsSteps(store: Store, ws: seq<World>, ss: seq<Step>, k: nat, p: nat)
    requires IsRun(store, ws, ss) && k <= |ss| && p in ws[k].puts
    ensures EndsAs(ss, k, p, ws[k].puts[p])
  {
    if k > 0 {
      if p in ws[k - 1].puts {
        PutEndsAsItsSteps(store, ws, ss, k - 1, p);
      } else {
        NoFailureYet(store, ws, ss, k - 1, p);
        NotYet(store, ws, ss, k - 1, p, Rename(p, true));
      }
      EndsAsStep(store, ss, k, ws[k - 1], p);
    }
  }

  /** What a Put reports: success, or an error, exactly as its file operations went, or its cancellation. */
  lemma PutReports(store: Store, ws: seq<World>, ss: seq<Step>, k: nat, p: nat)
    requires IsRun(store, ws, ss) && k <= |ss| && p in ws[k].puts && ws[k].puts[p].result.Some?
    ensures match ws[k].puts[p].result.value
            case PutOk => !SomeFailed(ss, k, p)
            case PutFailed => SomeFailed(ss, k, p)
            case PutCancelled => ws[k].puts[p].cancelled
  {
    ResultsComeLast(store, ws, ss, k, p);
    PutEndsAsItsSteps(store, ws, ss, k, p);
  }

  /** The reading of a file fails. */
  predicate FailsGet(w: World, s: Step, g: nat) {
    s == ReadFails(g) || (s == Open(g, false) && g in w.gets && Final(w.gets[g].key) in w.dir)
  }

  predicate FailedGetAt(ws: seq<World>, ss: seq<Step>, i: nat, g: nat)
    requires i < |ss| < |ws|
  {
    FailsGet(ws[i], ss[i], g)
  }

  lemma GetFailureStep(w: World, get: Get, s: Step, g: nat)
    requires g in w.gets && w.gets[g] == get && GetEnabled(w, get, s) && GetOf(s) == Some(g)
    ensures GetStep(w, get, s).phase == Ended(Broken) ==> get.phase == Ended(Broken) || FailsGet(w, s, g)
  {
  }

  lemma GetBegins(w: World, s: Step, g: nat)
    requires Enabled(w, s) && g !in w.gets && g in GetsAfter(w, s)
    ensures GetsAfter(w, s)[g].phase == Opening && GetsAfter(w, s)[g].result.None?
  {
  }

  /** A Get that ends with an error had a file under its key that could not be opened or read. */
  lemma {:induction false} BrokenByFailure(store: Store, ws: seq<World>, ss: seq<Step>, k: nat, g: nat) returns (i: nat)
    requires IsRun(store, ws, ss) && k <= |ss| && g in ws[k].gets && ws[k].gets[g].phase == Ended(Broken)
    ensures i < k && FailedGetAt(ws, ss, i, g)
  {
    i := k - 1;
    if g in ws[i].gets {
      GetEvolves(ws[i], ss[i], g);
      if GetOf(ss[i]) == Some(g) {
        GetFailureStep(ws[i], ws[i].gets[g], ss[i], g);
      }
    } else {
      GetBegins(ws[i], ss[i], g);
    }
    if !FailedGetAt(ws, ss, i, g) {
      i := BrokenByFailure(store, ws, ss, i, g);
    }
  }

  /**
   A Put that reports success has replaced the file if and only if its context was not cancelled
   when its goroutine looked: a cancelled goroutine ends without an error, and when the waiting
   side then finds both the cancellation and the end it may pick the end.
   */
  lemma OkMeansStoredUnlessCancelled(store: Store, ws: seq<World>, ss: seq<Step>, p: nat, i: nat, k: nat)
    requires IsRun(store, ws, ss) && i < k <= |ss| && ss[i] == Check(p)
    ensures p in ws[k].puts
    ensures ws[k].puts[p].result == Some(PutOk) ==> (Renamed(ws[k].puts[p]) <==> !ws[i].puts[p].cancelled)
  {
    if ws[i].puts[p].cancelled {
      CancelledEarlyNeverStores(store, ws, ss, p, i, k);
    } else {
      CommittedStays(store, ws, ss, p, i + 1, k);
      ResultsComeLast(store, ws, ss, k, p);
    }
  }

  function LostSteps(key: string, data: string): seq<Step> {
    [ StartPut(0, key, data), Create(0, true), WriteMore(0, |data|), Close(0, true), CancelPut(0), Check(0),
      RemoveTemp(0, true), ReturnPut(0, false)
    ]
  }

  function LostPut(key: string, data: string, phase: PutPhase, cancelled: bool): map<nat, Put> {
    map[0 := Put(key, data, cancelled, phase, None)]
  }

  function LostWorlds(key: string, data: string): seq<World> {
    var temp := map[Temp(0) := 0];
    [ Start(),
      World(map[], map[], LostPut(key, data, Starting, false), map[], map[]),
      World(temp, map[0 := []], LostPut(key, data, Writing(0), false), map[], map[]),
      World(temp, map[0 := data], LostPut(key, data, Writing(|data|), false), map[], map[]),
      World(temp, map[0 := data], LostPut(key, data, Checking, false), map[], map[]),
      World(temp, map[0 := data], LostPut(key, data, Checking, true), map[], map[]),
      World(temp, map[0 := data], LostPut(key, data, Removing(false, false), true), map[], map[]),
      World(map[], map[0 := data], LostPut(key, data, Finished(false, false, false), true), map[], map[]),
      World(map[], map[0 := data],
        map[0 := Put(key, data, true, Finished(false, false, false), Some(PutOk))], map[], map[])
    ]
  }

  lemma LostBegins(key: string, data: string, i: nat)
    requires data != [] && i < 2
    ensures var ws := LostWorlds(key, data);
            var s := LostSteps(key, data)[i];
            Enabled(ws[i], s) && ws[i + 1] == Apply(Store(true), ws[i], s)
  {
  }

  lemma LostIsWritten(key: string, data: string, i: nat)
    requires data != [] && i == 2
    ensures var ws := LostWorlds(key, data);
            var s := LostSteps(key, data)[i];
            Enabled(ws[i], s) && ws[i + 1] == Apply(Store(true), ws[i], s)
  {
    assert data[..|data|] == data;
  }

  lemma LostIsCancelled(key: string, data: string, i: nat)
    requires data != [] && 3 <= i < 5
    ensures var ws := LostWorlds(key, data);
            var s := LostSteps(key, data)[i];
            Enabled(ws[i], s) && ws[i + 1] == Apply(Store(true), ws[i], s)
  {
  }

  lemma LostEnds(key: string, data: string, i: nat)
    requires data != [] && 5 <= i < 8
    ensures var ws := LostWorlds(key, data);
            var s := LostSteps(key, data)[i];
            Enabled(ws[i], s) && ws[i + 1] == Apply(Store(true), ws[i], s)
  {
  }

  /** The other case does happen: a Put into an empty directory succeeds and nothing is stored. */
  lemma SuccessWithoutStoring(key: string, data: string)
    requires data != []
    ensures IsRun(Store(true), LostWorlds(key, data), LostSteps(key, data))
    ensures var last := LostWorlds(key, data)[8]; last.puts[0].result == Some(PutOk) && Stored(last, key) == None
  {
    var ws := LostWorlds(key, data);
    var ss := LostSteps(key, data);
    forall i | 0 <= i < 8
      ensures Enabled(ws[i], ss[i]) && ws[i + 1] == Apply(Store(true), ws[i], ss[i])
    {
      if i < 2 {
        LostBegins(key, data, i);
      } else if i == 2 {
        LostIsWritten(key, data, i);
      } else if i < 5 {
        LostIsCancelled(key, data, i);
      } else {
        LostEnds(key, data, i);
      }
    }
  }

  // ---- a Put that outlives a Delete ----

  function LateSteps(key: string, data: string): seq<Step> {
    [ StartPut(0, key, data), Create(0, true), WriteMore(0, |data|), Close(0, true), Check(0), CancelPut(0),
      ReturnPut(0, true), StartDelete(0, key), Unlink(0, true), Rename(0, true)
    ]
  }

  function LatePut(key: string, data: string, phase: PutPhase, cancelled: bool, result: Option<PutResult>): map<nat, Put> {
    map[0 := Put(key, data, cancelled, phase, result)]
  }

  function LateWorlds(store: Store, key: string, data: string): seq<World> {
    var temp := map[Temp(0) := 0];
    var gone := LatePut(key, data, Renaming, true, Some(PutCancelled));
    [ Start(),
      World(map[], map[], LatePut(key, data, Starting, false, None), map[], map[]),
      World(temp, map[0 := []], LatePut(key, data, Writing(0), false, None), map[], map[]),
      World(temp, map[0 := data], LatePut(key, data, Writing(|data|), false, None), map[], map[]),
      World(temp, map[0 := data], LatePut(key, data, Checking, false, None), map[], map[]),
      World(temp, map[0 := data], LatePut(key, data, Renaming, false, None), map[], map[]),
      World(temp, map[0 := data], LatePut(key, data, Renaming, true, None), map[], map[]),
      World(temp, map[0 := data], gone, map[], map[]),
      World(temp, map[0 := data], gone, map[], map[0 := Delete(key, false)]),
      World(temp, map[0 := data], gone, map[], map[0 := Delete(key, true)]),
      World(map[Final(key) := 0], map[0 := data],
        LatePut(key, data, WindUp(store, false, true), true, Some(PutCancelled)), map[], map[0 := Delete(key, true)])
    ]
  }

  lemma LateBegins(store: Store, key: string, data: string, i: nat)
    requires data != [] && i < 2
    ensures var ws := LateWorlds(store, key, data);
            var s := LateSteps(key, data)[i];
            Enabled(ws[i], s) && ws[i + 1] == Apply(store, ws[i], s)
  {
  }

  lemma LateIsWritten(store: Store, key: string, data: string, i: nat)
    requires data != [] && i == 2
    ensures var ws := LateWorlds(store, key, data);
            var s := LateSteps(key, data)[i];
            Enabled(ws[i], s) && ws[i + 1] == Apply(store, ws[i], s)
  {
    assert data[..|data|] == data;
  }

  lemma LateIsChecked(store: Store, key: string, data: string, i: nat)
    requires data != [] && 3 <= i < 5
    ensures var ws := LateWorlds(store, key, data);
            var s := LateSteps(key, data)[i];
            Enabled(ws[i], s) && ws[i + 1] == Apply(store, ws[i], s)
  {
  }

  lemma LateReturns(store: Store, key: string, data: string, i: nat)
    requires data != [] && 5 <= i < 7
    ensures var ws := LateWorlds(store, key, data);
            var s := LateSteps(key, data)[i];
            Enabled(ws[i], s) && ws[i + 1] == Apply(store, ws[i], s)
  {
  }

  lemma LateIsDeleted(store: Store, key: string, data: string, i: nat)
    requires data != [] && 7 <= i < 9
    ensures var ws := LateWorlds(store, key, data);
            var s := LateSteps(key, data)[i];
            Enabled(ws[i], s) && ws[i + 1] == Apply(store, ws[i], s)
  {
  }

  lemma LateRenames(store: Store, key: string, data: string, i: nat)
    requires data != [] && i == 9
    ensures var ws := LateWorlds(store, key, data);
            var s := LateSteps(key, data)[i];
            Enabled(ws[i], s) && ws[i + 1] == Apply(store, ws[i], s)
  {
  }

  /**
   A Put cancelled after its check returns while its rename is still to come: a Delete that begins
   and succeeds afterwards finds nothing, and then the value appears.
   */
  lemma CancelledPutOutlivesDelete(store: Store, key: string, data: string)
    requires data != []
    ensures IsRun(store, LateWorlds(store, key, data), LateSteps(key, data))
    ensures var ws := LateWorlds(store, key, data);
            && ws[7].puts[0].result == Some(PutCancelled)
            && LateSteps(key, data)[8] == Unlink(0, true) && Stored(ws[9], key) == None
            && Stored(ws[10], key) == Some(data)
  {
    var ws := LateWorlds(store, key, data);
    var ss := LateSteps(key, data);
    forall i | 0 <= i < 10
      ensures Enabled(ws[i], ss[i]) && ws[i + 1] == Apply(store, ws[i], ss[i])
    {
      if i < 2 {
        LateBegins(store, key, data, i);
      } else if i == 2 {
        LateIsWritten(store, key, data, i);
      } else if i < 5 {
        LateIsChecked(store, key, data, i);
      } else if i < 7 {
        LateReturns(store, key, data, i);
      } else if i < 9 {
        LateIsDeleted(store, key, data, i);
      } else {
        LateRenames(store, key, data, i);
      }
    }
  }

  // ---- the three kinds of file behind FileDatabase ----

  datatype Kind = IPS | TXT | CERT

  function FileName(kind: Kind, domain: string): string {
    (match kind
     case IPS => "IPS-"
     case TXT => "TXT-"
     case CERT => "CERT-") + domain
  }

  /** Addresses, texts and certificates never share a file. */
  lemma FileNamesDistinct(k1: Kind, d1: string, k2: Kind, d2: string)
    ensures FileName(k1, d1) == FileName(k2, d2) <==> k1 == k2 && d1 == d2
  {
    if FileName(k1, d1) == FileName(k2, d2) {
      assert FileName(k1, d1)[0] == FileName(k2, d2)[0];
      var n := |FileName(k1, [])|;
      assert FileName(k1, d1)[n..] == d1 && FileName(k1, d2)[n..] == d2;
    }
  }
}
