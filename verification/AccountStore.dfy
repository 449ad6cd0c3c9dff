/** Saving the account credentials: write a sibling file, flush it, rename it
    over the account file. Several saves of several processes run at once, and
    any of them can fail or be cut off between two system calls. Processes that
    do not see each other, as in containers over one directory, may have the
    same pid. */
module AccountStore {
  import opened Prelude

  type Byte = b: nat | b < 256
  type Pid = nat
  type ProcessId = nat
  type SaveId = nat
  type Inode = nat

  // --- Temporary names --------------------------------------------------------------------

  function Digits(n: nat): string {
    if n < 10 then ['0' + n as char] else Digits(n / 10) + ['0' + (n % 10) as char]
  }

  function Value(s: string): int {
    if s == "" then 0 else 10 * Value(s[..|s| - 1]) + (s[|s| - 1] as int - '0' as int)
  }

  lemma {:induction false} DigitsReadBack(n: nat)
    ensures Value(Digits(n)) == n && '.' !in Digits(n) && Digits(n) != ""
  {
    if n >= 10 {
      DigitsReadBack(n / 10);
      assert Digits(n)[..|Digits(n)| - 1] == Digits(n / 10);
    }
  }

  function TempName(file: string, pid: Pid, n: nat): string {
    file + ("." + (Digits(pid) + "." + (Digits(n) + ".tmp")))
  }

  lemma NumberedEndsDiffer(pid: Pid, n: nat, pid': Pid, n': nat)
    requires Digits(pid) + "." + (Digits(n) + ".tmp") == Digits(pid') + "." + (Digits(n') + ".tmp")
    ensures pid == pid' && n == n'
  {
    DigitsReadBack(pid);
    DigitsReadBack(n);
    DigitsReadBack(pid');
    DigitsReadBack(n');
    SplitAtMark('.', Digits(pid), Digits(n) + ".tmp", Digits(pid'), Digits(n') + ".tmp");
    assert Digits(n) + ".tmp" == Digits(n) + "." + "tmp" && Digits(n') + ".tmp" == Digits(n') + "." + "tmp";
    SplitAtMark('.', Digits(n), "tmp", Digits(n'), "tmp");
  }

  /** One name per process and call, and never the account file's own. */
  lemma TempNamesDiffer(file: string, pid: Pid, n: nat, pid': Pid, n': nat)
    ensures TempName(file, pid, n) == TempName(file, pid', n') <==> pid == pid' && n == n'
    ensures TempName(file, pid, n) != file
  {
    var t, t' := TempName(file, pid, n), TempName(file, pid', n');
    assert |t| > |file|;
    if t == t' {
      assert t[|file| + 1..] == Digits(pid) + "." + (Digits(n) + ".tmp");
      assert t'[|file| + 1..] == Digits(pid') + "." + (Digits(n') + ".tmp");
      NumberedEndsDiffer(pid, n, pid', n');
    }
  }

  // --- The file system and the saves under way ----------------------------------------------

  /** `synced` data survives a power loss; other data may become anything. */
  datatype Data = Data(bytes: seq<Byte>, synced: bool)

  /** Names lead to files; an open file outlives its name. */
  datatype Disk = Disk(dir: map<string, Inode>, data: map<Inode, Data>)

  datatype Phase = Opening | Writing(handle: Inode, written: nat) | Renaming(handle: Inode) | Removing

  /** What a temporary name is made of: a pid and the count of a process's saves. */
  datatype Number = Number(pid: Pid, n: nat)

  /** A save under way. `met` are the saves of the same number that were under
      way at some moment of its own. */
  datatype Save = Save(process: ProcessId, number: Number, bytes: seq<Byte>, phase: Phase, met: set<SaveId>)

  datatype Process = Process(pid: Pid, count: nat)

  /** `begun` are all the saves so far, with their numbers. */
  datatype State = State(
    disk: Disk,
    processes: map<ProcessId, Process>,
    saves: map<SaveId, Save>,
    begun: map<SaveId, Number>)

  datatype Act =
    | Spawn(process: ProcessId, pid: Pid)
    | Halt(process: ProcessId)
    | PowerLoss(after: map<Inode, Data>)
    | Start(id: SaveId, process: ProcessId, bytes: seq<Byte>)
    | Create(id: SaveId, inode: Inode)
    | Write(id: SaveId, upTo: nat)
    | Sync(id: SaveId)
    | Rename(id: SaveId)
    | Fail(id: SaveId)
    | Remove(id: SaveId)
    | GiveUp(id: SaveId)

  function Temp(file: string, save: Save): string {
    TempName(file, save.number.pid, save.number.n)
  }

  /** What a power loss may make of the data. */
  predicate Survives(before: map<Inode, Data>, after: map<Inode, Data>) {
    after.Keys == before.Keys && forall i | i in before && before[i].synced :: after[i] == before[i]
  }

  predicate InPhase(s: State, id: SaveId, a: Act) {
    && id in s.saves
    && var save := s.saves[id];
       match a
       case Write(_, upTo) => save.phase.Writing? && save.phase.written < upTo <= |save.bytes|
       case Sync(_) => save.phase.Writing? && save.phase.written == |save.bytes|
       case _ => false
  }

  /** When the operating system lets an act happen. Creating fails if the name
      exists; every call may fail. */
  predicate Enabled(file: string, s: State, a: Act) {
    match a
    case Spawn(p, _) => p !in s.processes
    case Halt(p) => p in s.processes
    case PowerLoss(after) => Survives(s.disk.data, after)
    case Start(id, p, _) => id !in s.begun && p in s.processes
    case Create(id, inode) =>
      id in s.saves && s.saves[id].phase.Opening? && Temp(file, s.saves[id]) !in s.disk.dir && inode !in s.disk.data
    case Write(id, _) => InPhase(s, id, a) && s.saves[id].phase.handle in s.disk.data
    case Sync(id) => InPhase(s, id, a) && s.saves[id].phase.handle in s.disk.data
    case Rename(id) => id in s.saves && s.saves[id].phase.Renaming? && Temp(file, s.saves[id]) in s.disk.dir
    case Fail(id) => id in s.saves && !s.saves[id].phase.Removing?
    case Remove(id) => id in s.saves && s.saves[id].phase.Removing?
    case GiveUp(id) => id in s.saves && s.saves[id].phase.Removing?
  }

  function Goto(saves: map<SaveId, Save>, id: SaveId, phase: Phase): map<SaveId, Save>
    requires id in saves
  {
    saves[id := saves[id].(phase := phase)]
  }

  function Without(saves: map<SaveId, Save>, p: ProcessId): map<SaveId, Save> {
    map id | id in saves && saves[id].process != p :: saves[id]
  }

  /** The saves of a number that are under way. */
  function Alike(saves: map<SaveId, Save>, number: Number): set<SaveId> {
    set id | id in saves && saves[id].number == number
  }

  /** The saves under way once save `id` has begun: those of its number have met it. */
  function Joined(saves: map<SaveId, Save>, id: SaveId, p: ProcessId, number: Number,
                  bytes: seq<Byte>): map<SaveId, Save> {
    var others := map j | j in saves :: if saves[j].number == number then saves[j].(met := saves[j].met + {id})
        else saves[j];
    others[id := Save(p, number, bytes, Opening, Alike(saves, number))]
  }

  function Next(file: string, s: State, a: Act): State
    requires Enabled(file, s, a)
  {
    match a
    case Spawn(p, pid) => s.(processes := s.processes[p := Process(pid, 0)])
    case Halt(p) => s.(processes := s.processes - {p}, saves := Without(s.saves, p))
    case PowerLoss(after) => State(s.disk.(data := after), map[], map[], s.begun)
    case Start(id, p, bytes) =>
      var process := s.processes[p];
      var number := Number(process.pid, process.count);
      State(s.disk, s.processes[p := process.(count := process.count + 1)],
            Joined(s.saves, id, p, number, bytes), s.begun[id := number])
    case Create(id, inode) =>
      var t := Temp(file, s.saves[id]);
      s.(disk := Disk(s.disk.dir[t := inode], s.disk.data[inode := Data([], false)]),
         saves := Goto(s.saves, id, Writing(inode, 0)))
    case Write(id, upTo) =>
      var save := s.saves[id];
      var h := save.phase.handle;
      s.(disk := s.disk.(data := s.disk.data[h := Data(save.bytes[..upTo], false)]),
         saves := Goto(s.saves, id, Writing(h, upTo)))
    case Sync(id) =>
      var h := s.saves[id].phase.handle;
      s.(disk := s.disk.(data := s.disk.data[h := s.disk.data[h].(synced := true)]),
         saves := Goto(s.saves, id, Renaming(h)))
    case Rename(id) =>
      var t := Temp(file, s.saves[id]);
      s.(disk := s.disk.(dir := (s.disk.dir - {t})[file := s.disk.dir[t]]), saves := s.saves - {id})
    case Fail(id) => s.(saves := Goto(s.saves, id, Removing))
    case Remove(id) => s.(disk := s.disk.(dir := s.disk.dir - {Temp(file, s.saves[id])}), saves := s.saves - {id})
    case GiveUp(id) => s.(saves := s.saves - {id})
  }

  predicate Step(file: string, s: State, a: Act, s': State) {
    Enabled(file, s, a) && s' == Next(file, s, a)
  }

  /** What loading the account finds. */
  function Account(file: string, s: State): Option<Data> {
    if file in s.disk.dir && s.disk.dir[file] in s.disk.data then Some(s.disk.data[s.disk.dir[file]]) else None
  }

  // --- A save that goes through -----------------------------------------------------------------

  /** From an open file to a flushed one with all the bytes. */
  lemma FillsTheFile(file: string, s: State, id: SaveId, h: Inode) returns (written: State, synced: State)
    requires id in s.saves && s.saves[id].phase == Writing(h, 0) && h in s.disk.data && s.disk.data[h].bytes == []
    ensures if s.saves[id].bytes == [] then written == s
            else Step(file, s, Write(id, |s.saves[id].bytes|), written)
    ensures Step(file, written, Sync(id), synced)
    ensures synced == s.(disk := s.disk.(data := s.disk.data[h := Data(s.saves[id].bytes, true)]),
                         saves := Goto(s.saves, id, Renaming(h)))
  {
    var bytes := s.saves[id].bytes;
    assert bytes[..|bytes|] == bytes;
    if bytes == [] {
      written := s;
    } else {
      written := Next(file, s, Write(id, |bytes|));
    }
    synced := Next(file, written, Sync(id));
  }

  /** A save whose temporary name is free can go through: its system calls make
      the account exactly its bytes, flushed, and leave every other name alone. */
  lemma SaveSucceeds(file: string, s: State, id: SaveId, inode: Inode)
    returns (created: State, written: State, synced: State, saved: State)
    requires id in s.saves && s.saves[id].phase.Opening?
    requires Temp(file, s.saves[id]) !in s.disk.dir && inode !in s.disk.data
    ensures Step(file, s, Create(id, inode), created)
    ensures if s.saves[id].bytes == [] then written == created
            else Step(file, created, Write(id, |s.saves[id].bytes|), written)
    ensures Step(file, written, Sync(id), synced) && Step(file, synced, Rename(id), saved)
    ensures Account(file, saved) == Some(Data(s.saves[id].bytes, true))
    ensures saved.disk.dir == s.disk.dir[file := inode] && saved.saves == s.saves - {id}
    ensures saved.disk.data - {inode} == s.disk.data
  {
    var save := s.saves[id];
    TempNamesDiffer(file, save.number.pid, save.number.n, save.number.pid, save.number.n);
    created := Next(file, s, Create(id, inode));
    written, synced := FillsTheFile(file, created, id, inode);
    saved := Next(file, synced, Rename(id));
  }

  // --- The invariant --------------------------------------------------------------------------

  /** No save has met two others of its number. */
  ghost predicate MeetsOneAtMost(s: State) {
    forall i, a, b | i in s.saves && a in s.saves[i].met && b in s.saves[i].met :: a == b
  }

  /** The file a save has open. */
  function Handle(save: Save): Option<Inode> {
    match save.phase
    case Writing(h, _) => Some(h)
    case Renaming(h) => Some(h)
    case _ => None
  }

  /** Saves of one number that are under way together have met. */
  ghost predicate MeetingsOk(s: State) {
    && s.saves.Keys <= s.begun.Keys
    && (forall i | i in s.saves :: s.saves[i].met <= s.begun.Keys)
    && (forall i, j | i in s.saves && j in s.saves && i != j && s.saves[i].number == s.saves[j].number ::
        j in s.saves[i].met)
  }

  /** Different names lead to different files, and the account is flushed. */
  ghost predicate DiskOk(file: string, d: Disk) {
    && (forall t | t in d.dir :: d.dir[t] in d.data)
    && (forall t, u | t in d.dir && u in d.dir && t != u :: d.dir[t] != d.dir[u])
    && (file in d.dir ==> d.data[d.dir[file]].synced)
  }

  /** What a save has open holds what it has written, and no name leads there
      but its own; its own name leads nowhere else, and is gone only if the save
      has met another of its number. */
  ghost predicate FileOk(file: string, d: Disk, save: Save) {
    Handle(save).Some? ==>
      var h, t := Handle(save).value, Temp(file, save);
      && h in d.data
      && (forall u | u in d.dir && d.dir[u] == h :: u == t)
      && (t in d.dir ==> d.dir[t] == h) && (save.met == {} ==> t in d.dir)
      && match save.phase
         case Writing(_, w) => w <= |save.bytes| && d.data[h].bytes == save.bytes[..w]
         case _ => d.data[h] == Data(save.bytes, true)
  }

  /** Two saves have different files open; and beside one of the same number, a
      save that has its file open still has its name. */
  ghost predicate PairOk(file: string, d: Disk, a: Save, b: Save) {
    Handle(a).Some? ==>
      && Handle(a) != Handle(b)
      && (a.number == b.number ==> Handle(b).None? && Temp(file, a) in d.dir)
  }

  ghost predicate Inv(file: string, s: State) {
    && MeetingsOk(s) && DiskOk(file, s.disk)
    && (forall i | i in s.saves :: FileOk(file, s.disk, s.saves[i]))
    && (forall i, j | i in s.saves && j in s.saves && i != j :: PairOk(file, s.disk, s.saves[i], s.saves[j]))
  }

  lemma TempsDiffer(file: string, a: Save, b: Save)
    ensures Temp(file, a) == Temp(file, b) <==> a.number == b.number
    ensures Temp(file, a) != file
  {
    TempNamesDiffer(file, a.number.pid, a.number.n, b.number.pid, b.number.n);
  }

  // --- Every act keeps it -----------------------------------------------------------------------

  lemma CreateKeepsInv(file: string, s: State, id: SaveId, inode: Inode)
    requires Inv(file, s) && Enabled(file, s, Create(id, inode))
    ensures Inv(file, Next(file, s, Create(id, inode)))
    ensures Account(file, Next(file, s, Create(id, inode))) == Account(file, s)
  {
    var s' := Next(file, s, Create(id, inode));
    forall j | j in s.saves ensures FileOk(file, s'.disk, s'.saves[j]) {
      TempsDiffer(file, s.saves[id], s.saves[j]);
      assert FileOk(file, s.disk, s.saves[j]);
      assert j != id ==> PairOk(file, s.disk, s.saves[j], s.saves[id]);
    }
    forall i, j | i in s'.saves && j in s'.saves && i != j ensures PairOk(file, s'.disk, s'.saves[i], s'.saves[j]) {
      assert PairOk(file, s.disk, s.saves[i], s.saves[j]) && PairOk(file, s.disk, s.saves[j], s.saves[i]);
      assert FileOk(file, s.disk, s.saves[i]) && FileOk(file, s.disk, s.saves[j]);
      TempsDiffer(file, s.saves[i], s.saves[j]);
    }
    TempsDiffer(file, s.saves[id], s.saves[id]);
  }

  lemma DataKeepsInv(file: string, s: State, s': State, id: SaveId, phase: Phase, data: Data)
    requires Inv(file, s) && id in s.saves && Handle(s.saves[id]).Some?
    requires var h := Handle(s.saves[id]).value;
             s' == s.(disk := s.disk.(data := s.disk.data[h := data]), saves := Goto(s.saves, id, phase))
             && Handle(s'.saves[id]) == Some(h)
    requires FileOk(file, s'.disk, s'.saves[id])
    ensures Inv(file, s') && Account(file, s') == Account(file, s)
  {
    var h := Handle(s.saves[id]).value;
    assert FileOk(file, s.disk, s.saves[id]);
    TempsDiffer(file, s.saves[id], s.saves[id]);
    forall j | j in s.saves && j != id ensures FileOk(file, s'.disk, s'.saves[j]) {
      assert PairOk(file, s.disk, s.saves[j], s.saves[id]) && FileOk(file, s.disk, s.saves[j]);
    }
    forall i, j | i in s'.saves && j in s'.saves && i != j ensures PairOk(file, s'.disk, s'.saves[i], s'.saves[j]) {
      assert PairOk(file, s.disk, s.saves[i], s.saves[j]);
    }
  }

  lemma WriteKeepsInv(file: string, s: State, id: SaveId, upTo: nat)
    requires Inv(file, s) && Enabled(file, s, Write(id, upTo))
    ensures Inv(file, Next(file, s, Write(id, upTo)))
    ensures Account(file, Next(file, s, Write(id, upTo))) == Account(file, s)
  {
    var save := s.saves[id];
    assert FileOk(file, s.disk, save);
    DataKeepsInv(file, s, Next(file, s, Write(id, upTo)), id, Writing(save.phase.handle, upTo),
        Data(save.bytes[..upTo], false));
  }

  lemma SyncKeepsInv(file: string, s: State, id: SaveId)
    requires Inv(file, s) && Enabled(file, s, Sync(id))
    ensures Inv(file, Next(file, s, Sync(id)))
    ensures Account(file, Next(file, s, Sync(id))) == Account(file, s)
  {
    var save := s.saves[id];
    assert FileOk(file, s.disk, save);
    assert save.bytes[..|save.bytes|] == save.bytes;
    DataKeepsInv(file, s, Next(file, s, Sync(id)), id, Renaming(save.phase.handle), Data(save.bytes, true));
  }

  lemma RenameKeepsInv(file: string, s: State, id: SaveId)
    requires Inv(file, s) && Enabled(file, s, Rename(id))
    ensures Inv(file, Next(file, s, Rename(id)))
    ensures Account(file, Next(file, s, Rename(id))) == Some(Data(s.saves[id].bytes, true))
  {
    var s' := Next(file, s, Rename(id));
    assert FileOk(file, s.disk, s.saves[id]);
    TempsDiffer(file, s.saves[id], s.saves[id]);
    forall j | j in s'.saves ensures FileOk(file, s'.disk, s'.saves[j]) {
      TempsDiffer(file, s.saves[j], s.saves[id]);
      assert FileOk(file, s.disk, s.saves[j]);
      assert PairOk(file, s.disk, s.saves[j], s.saves[id]) && PairOk(file, s.disk, s.saves[id], s.saves[j]);
    }
    forall i, j | i in s'.saves && j in s'.saves && i != j ensures PairOk(file, s'.disk, s'.saves[i], s'.saves[j]) {
      TempsDiffer(file, s.saves[i], s.saves[id]);
      assert PairOk(file, s.disk, s.saves[i], s.saves[j]);
      assert PairOk(file, s.disk, s.saves[id], s.saves[i]);
    }
  }

  /** Removing the name of another save's file harms that save alone, which has
      met nobody else. */
  lemma RemoveKeepsInv(file: string, s: State, id: SaveId)
    requires Inv(file, s) && MeetsOneAtMost(s) && Enabled(file, s, Remove(id))
    ensures Inv(file, Next(file, s, Remove(id)))
    ensures Account(file, Next(file, s, Remove(id))) == Account(file, s)
  {
    var s' := Next(file, s, Remove(id));
    TempsDiffer(file, s.saves[id], s.saves[id]);
    forall j | j in s'.saves ensures FileOk(file, s'.disk, s'.saves[j]) {
      TempsDiffer(file, s.saves[j], s.saves[id]);
      assert FileOk(file, s.disk, s.saves[j]);
    }
    forall i, j | i in s'.saves && j in s'.saves && i != j ensures PairOk(file, s'.disk, s'.saves[i], s'.saves[j]) {
      TempsDiffer(file, s.saves[i], s.saves[id]);
      assert PairOk(file, s.disk, s.saves[i], s.saves[j]);
      if s.saves[i].number == s.saves[j].number == s.saves[id].number {
        assert false;
      }
    }
  }

  /** `s'` is `s` with save `id` begun: joining changes nothing of a save but
      whom it has met. */
  ghost predicate JoinedBy(s: State, s': State, id: SaveId) {
    && id !in s.begun && s'.begun.Keys == s.begun.Keys + {id} && s'.disk == s.disk
    && s'.saves.Keys == s.saves.Keys + {id} && s'.saves[id].phase.Opening?
    && s'.saves[id].met == Alike(s.saves, s'.saves[id].number)
    && forall k | k in s.saves :: k != id
         && s'.saves[k].(met := s.saves[k].met) == s.saves[k]
         && s'.saves[k].met == s.saves[k].met + (if s.saves[k].number == s'.saves[id].number then {id} else {})
  }

  lemma StartJoins(file: string, s: State, id: SaveId, p: ProcessId, bytes: seq<Byte>)
    requires MeetingsOk(s) && Enabled(file, s, Start(id, p, bytes))
    ensures JoinedBy(s, Next(file, s, Start(id, p, bytes)), id)
  {
  }

  lemma JoinedMeetings(s: State, s': State, id: SaveId)
    requires MeetingsOk(s) && JoinedBy(s, s', id)
    ensures MeetingsOk(s')
  {
  }

  lemma JoinedFile(file: string, s: State, s': State, i: SaveId, id: SaveId)
    requires Inv(file, s) && JoinedBy(s, s', id) && i in s'.saves
    ensures FileOk(file, s.disk, s'.saves[i])
  {
    assert i != id ==> FileOk(file, s.disk, s.saves[i]);
  }

  lemma JoinedPair(file: string, s: State, s': State, i: SaveId, j: SaveId, id: SaveId)
    requires Inv(file, s) && JoinedBy(s, s', id) && MeetsOneAtMost(s') && i in s'.saves && j in s'.saves && i != j
    ensures PairOk(file, s.disk, s'.saves[i], s'.saves[j])
  {
    if i != id && j != id {
      assert PairOk(file, s.disk, s.saves[i], s.saves[j]);
    } else if i != id && s.saves[i].number == s'.saves[id].number {
      MetNobodyBefore(s, s', i, id);
      assert FileOk(file, s.disk, s.saves[i]);
    }
  }

  /** A save that begins beside one with its file open finds that one's name in
      place: it is the first to meet it. */
  lemma StartKeepsInv(file: string, s: State, id: SaveId, p: ProcessId, bytes: seq<Byte>)
    requires Inv(file, s) && Enabled(file, s, Start(id, p, bytes))
    requires MeetsOneAtMost(Next(file, s, Start(id, p, bytes)))
    ensures Inv(file, Next(file, s, Start(id, p, bytes)))
    ensures Account(file, Next(file, s, Start(id, p, bytes))) == Account(file, s)
  {
    var s' := Next(file, s, Start(id, p, bytes));
    StartJoins(file, s, id, p, bytes);
    JoinedMeetings(s, s', id);
    forall i | i in s'.saves ensures FileOk(file, s'.disk, s'.saves[i]) {
      JoinedFile(file, s, s', i, id);
    }
    forall i, j | i in s'.saves && j in s'.saves && i != j ensures PairOk(file, s'.disk, s'.saves[i], s'.saves[j]) {
      JoinedPair(file, s, s', i, j, id);
    }
  }

  lemma MetNobodyBefore(s: State, s': State, i: SaveId, id: SaveId)
    requires MeetingsOk(s) && MeetsOneAtMost(s') && i in s.saves && i in s'.saves && id !in s.begun
    requires s'.saves[i].met == s.saves[i].met + {id}
    ensures s.saves[i].met == {}
  {
    assert id in s'.saves[i].met && forall m | m in s.saves[i].met :: m in s'.saves[i].met;
  }

  lemma QuietKeepsInv(file: string, s: State, a: Act)
    requires Inv(file, s) && Enabled(file, s, a) && (a.Spawn? || a.Halt? || a.PowerLoss?)
    ensures Inv(file, Next(file, s, a)) && Account(file, Next(file, s, a)) == Account(file, s)
  {
  }

  lemma FailKeepsInv(file: string, s: State, a: Act)
    requires Inv(file, s) && Enabled(file, s, a) && (a.Fail? || a.GiveUp?)
    ensures Inv(file, Next(file, s, a)) && Account(file, Next(file, s, a)) == Account(file, s)
  {
    var s' := Next(file, s, a);
    forall i, j | i in s'.saves && j in s'.saves && i != j ensures PairOk(file, s'.disk, s'.saves[i], s'.saves[j]) {
      assert PairOk(file, s.disk, s.saves[i], s.saves[j]);
    }
  }

  /** The account file after an act. */
  function AccountAfter(file: string, s: State, a: Act): Option<Data> {
    if a.Rename? && a.id in s.saves then Some(Data(s.saves[a.id].bytes, true)) else Account(file, s)
  }

  /** While no save meets two of its number, every act keeps the invariant, and
      the account file is changed by nothing but a rename, which puts exactly the
      bytes of that save in its place. */
  lemma ActKeepsInv(file: string, s: State, a: Act, s': State)
    requires Inv(file, s) && Step(file, s, a, s') && MeetsOneAtMost(s) && MeetsOneAtMost(s')
    ensures Inv(file, s') && Account(file, s') == AccountAfter(file, s, a)
  {
    match a
    case Create(id, inode) => CreateKeepsInv(file, s, id, inode);
    case Write(id, upTo) => WriteKeepsInv(file, s, id, upTo);
    case Sync(id) => SyncKeepsInv(file, s, id);
    case Rename(id) => RenameKeepsInv(file, s, id);
    case Remove(id) => RemoveKeepsInv(file, s, id);
    case Start(id, p, bytes) => StartKeepsInv(file, s, id, p, bytes);
    case Fail(_) => FailKeepsInv(file, s, a);
    case GiveUp(_) => FailKeepsInv(file, s, a);
    case Spawn(_, _) => QuietKeepsInv(file, s, a);
    case Halt(_) => QuietKeepsInv(file, s, a);
    case PowerLoss(_) => QuietKeepsInv(file, s, a);
  }

  // --- Whole runs ---------------------------------------------------------------------------------

  ghost predicate Init(file: string, s: State) {
    DiskOk(file, s.disk) && s.processes == map[] && s.saves == map[]
  }

  ghost predicate IsRun(file: string, run: seq<State>, acts: seq<Act>) {
    && |run| == |acts| + 1 && Init(file, run[0])
    && forall i | 0 <= i < |acts| :: Step(file, run[i], acts[i], run[i + 1])
  }

  /** Credentials some save of the run was begun with. */
  ghost predicate Offered(acts: seq<Act>, bytes: seq<Byte>) {
    exists a :: a in acts && a.Start? && a.bytes == bytes
  }

  ghost predicate SavesOffered(acts: seq<Act>, s: State) {
    forall i | i in s.saves :: Offered(acts, s.saves[i].bytes)
  }

  lemma OfferedGrows(acts: seq<Act>, a: Act, bytes: seq<Byte>)
    ensures Offered(acts + [a], bytes) <==> Offered(acts, bytes) || (a.Start? && a.bytes == bytes)
  {
    if Offered(acts, bytes) {
      var o :| o in acts && o.Start? && o.bytes == bytes;
      assert o in acts + [a];
    }
    if a.Start? && a.bytes == bytes {
      assert a in acts + [a];
    }
  }

  lemma ActKeepsOffered(file: string, acts: seq<Act>, s: State, a: Act, s': State)
    requires Step(file, s, a, s') && SavesOffered(acts, s)
    ensures SavesOffered(acts + [a], s')
  {
    forall i | i in s'.saves ensures Offered(acts + [a], s'.saves[i].bytes) {
      OfferedGrows(acts, a, s'.saves[i].bytes);
      assert i in s.saves || (a.Start? && a.id == i);
    }
  }

  /** The first account, or credentials that were saved, whole and flushed. */
  ghost predicate Whole(first: Option<Data>, acts: seq<Act>, now: Option<Data>) {
    now == first || (now.Some? && now.value.synced && Offered(acts, now.value.bytes))
  }

  lemma ActStaysWhole(file: string, first: Option<Data>, acts: seq<Act>, s: State, a: Act)
    requires SavesOffered(acts, s) && Whole(first, acts, Account(file, s))
    ensures Whole(first, acts + [a], AccountAfter(file, s, a))
  {
    var now := AccountAfter(file, s, a);
    if now.Some? {
      OfferedGrows(acts, a, now.value.bytes);
    }
  }

  ghost predicate Good(file: string, first: Option<Data>, acts: seq<Act>, s: State) {
    Inv(file, s) && SavesOffered(acts, s) && Whole(first, acts, Account(file, s))
  }

  lemma ActStaysGood(file: string, first: Option<Data>, acts: seq<Act>, s: State, a: Act, s': State)
    requires Good(file, first, acts, s) && Step(file, s, a, s') && MeetsOneAtMost(s) && MeetsOneAtMost(s')
    ensures Good(file, first, acts + [a], s')
  {
    ActKeepsInv(file, s, a, s');
    ActKeepsOffered(file, acts, s, a, s');
    ActStaysWhole(file, first, acts, s, a);
  }

  lemma ActAt(file: string, run: seq<State>, acts: seq<Act>, i: nat)
    requires IsRun(file, run, acts) && 0 < i < |run|
    ensures Step(file, run[i - 1], acts[i - 1], run[i]) && acts[..i] == acts[..i - 1] + [acts[i - 1]]
  {
    assert Step(file, run[i - 1], acts[i - 1], run[i - 1 + 1]);
  }

  /** At every moment of every run in which no save meets two of its number,
      whoever crashed or failed in between, the account file is the one it was at
      first or holds, whole and flushed, the credentials of one save. */
  lemma {:induction false} AccountIsAlwaysWhole(file: string, run: seq<State>, acts: seq<Act>, i: nat)
    requires IsRun(file, run, acts) && i < |run| && forall k | 0 <= k <= i :: MeetsOneAtMost(run[k])
    ensures Good(file, Account(file, run[0]), acts[..i], run[i])
    ensures Whole(Account(file, run[0]), acts[..i], Account(file, run[i]))
  {
    if i > 0 {
      AccountIsAlwaysWhole(file, run, acts, i - 1);
      ActAt(file, run, acts, i);
      ActStaysGood(file, Account(file, run[0]), acts[..i - 1], run[i - 1], acts[i - 1], run[i]);
    }
  }

  /** At every such moment no two saves have the same file open, and none has the
      account file open. */
  lemma NoSaveWritesAnothersFile(file: string, run: seq<State>, acts: seq<Act>, i: nat, a: SaveId, b: SaveId)
    requires IsRun(file, run, acts) && i < |run| && a in run[i].saves && b in run[i].saves
    requires forall k | 0 <= k <= i :: MeetsOneAtMost(run[k])
    ensures Handle(run[i].saves[a]).Some? ==>
              && (a != b ==> Handle(run[i].saves[a]) != Handle(run[i].saves[b]))
              && (file in run[i].disk.dir ==> Handle(run[i].saves[a]) != Some(run[i].disk.dir[file]))
  {
    AccountIsAlwaysWhole(file, run, acts, i);
    var s := run[i];
    TempsDiffer(file, s.saves[a], s.saves[a]);
    assert FileOk(file, s.disk, s.saves[a]);
    if a != b {
      assert PairOk(file, s.disk, s.saves[a], s.saves[b]);
    }
  }

  // --- Distinct pids ------------------------------------------------------------------------------

  /** Live processes see each other's pids. */
  ghost predicate PidsDiffer(s: State) {
    forall p, q | p in s.processes && q in s.processes && p != q :: s.processes[p].pid != s.processes[q].pid
  }

  /** Saves carry the pid and an earlier count of their live process, each its own. */
  ghost predicate NumbersOk(s: State) {
    && (forall i | i in s.saves ::
          && s.saves[i].process in s.processes
          && s.saves[i].number.pid == s.processes[s.saves[i].process].pid
          && s.saves[i].number.n < s.processes[s.saves[i].process].count)
    && (forall i, j | i in s.saves && j in s.saves && i != j && s.saves[i].process == s.saves[j].process ::
          s.saves[i].number != s.saves[j].number)
  }

  ghost predicate MeetsNobody(s: State) {
    forall i | i in s.saves :: s.saves[i].met == {}
  }

  lemma NobodyAlike(s: State, p: ProcessId)
    requires NumbersOk(s) && PidsDiffer(s) && p in s.processes
    ensures Alike(s.saves, Number(s.processes[p].pid, s.processes[p].count)) == {}
  {
  }

  lemma DistinctPidsStart(s: State, s': State, id: SaveId, p: ProcessId, bytes: seq<Byte>)
    requires NumbersOk(s) && PidsDiffer(s) && MeetsNobody(s) && p in s.processes && id !in s.saves
    requires var process := s.processes[p];
             && s'.processes == s.processes[p := process.(count := process.count + 1)]
             && s'.saves == Joined(s.saves, id, p, Number(process.pid, process.count), bytes)
    ensures NumbersOk(s') && MeetsNobody(s')
  {
    NobodyAlike(s, p);
    forall j | j in s.saves ensures s'.saves[j] == s.saves[j] {
      assert j !in Alike(s.saves, Number(s.processes[p].pid, s.processes[p].count));
    }
  }

  /** Saves that go on or end change no number. */
  lemma SameNumbers(s: State, s': State)
    requires NumbersOk(s) && MeetsNobody(s) && s'.saves.Keys <= s.saves.Keys && s'.processes == s.processes
    requires forall i | i in s'.saves :: s'.saves[i].(phase := s.saves[i].phase) == s.saves[i]
    ensures NumbersOk(s') && MeetsNobody(s')
  {
    forall i | i in s'.saves
      ensures s'.saves[i].number == s.saves[i].number && s'.saves[i].process == s.saves[i].process &&
          s'.saves[i].met == {}
    {
    }
  }

  lemma SpawnKeepsNumbers(s: State, p: ProcessId, process: Process)
    requires NumbersOk(s) && p !in s.processes
    ensures NumbersOk(s.(processes := s.processes[p := process]))
  {
  }

  lemma HaltKeepsNumbers(s: State, p: ProcessId)
    requires NumbersOk(s) && MeetsNobody(s)
    ensures var s' := s.(processes := s.processes - {p}, saves := Without(s.saves, p)); NumbersOk(s') && MeetsNobody(s')
  {
  }

  lemma ProcessStep(file: string, s: State, a: Act, s': State)
    requires Step(file, s, a, s') && NumbersOk(s) && MeetsNobody(s) && (a.Spawn? || a.Halt? || a.PowerLoss?)
    ensures NumbersOk(s') && MeetsNobody(s')
  {
    if a.Spawn? {
      SpawnKeepsNumbers(s, a.process, Process(a.pid, 0));
    } else if a.Halt? {
      HaltKeepsNumbers(s, a.process);
    }
  }

  lemma SaveStep(file: string, s: State, a: Act, s': State)
    requires Step(file, s, a, s') && !a.Spawn? && !a.Halt? && !a.PowerLoss? && !a.Start?
    ensures s'.saves.Keys <= s.saves.Keys && s'.processes == s.processes && s'.begun == s.begun
    ensures forall i | i in s'.saves :: s'.saves[i].(phase := s.saves[i].phase) == s.saves[i]
  {
  }

  lemma DistinctPidsStep(file: string, s: State, a: Act, s': State)
    requires Step(file, s, a, s') && NumbersOk(s) && PidsDiffer(s) && MeetsNobody(s) && s.saves.Keys <= s.begun.Keys
    ensures NumbersOk(s') && MeetsNobody(s') && s'.saves.Keys <= s'.begun.Keys
  {
    if a.Start? {
      DistinctPidsStart(s, s', a.id, a.process, a.bytes);
    } else if a.Spawn? || a.Halt? || a.PowerLoss? {
      ProcessStep(file, s, a, s');
    } else {
      SaveStep(file, s, a, s');
      SameNumbers(s, s');
    }
  }

  /** With distinct pids no save ever meets another of its number: pids may be
      used again, one process after the other. */
  lemma {:induction false} DistinctPidsMeetNobody(file: string, run: seq<State>, acts: seq<Act>, i: nat)
    requires IsRun(file, run, acts) && i < |run| && forall k | 0 <= k <= i :: PidsDiffer(run[k])
    ensures NumbersOk(run[i]) && MeetsNobody(run[i]) && MeetsOneAtMost(run[i]) && run[i].saves.Keys <= run[i].begun.Keys
  {
    if i > 0 {
      DistinctPidsMeetNobody(file, run, acts, i - 1);
      ActAt(file, run, acts, i);
      DistinctPidsStep(file, run[i - 1], acts[i - 1], run[i]);
    }
  }

  lemma DistinctPidsAreSafe(file: string, run: seq<State>, acts: seq<Act>, i: nat)
    requires IsRun(file, run, acts) && i < |run| && forall k | 0 <= k <= i :: PidsDiffer(run[k])
    ensures Whole(Account(file, run[0]), acts[..i], Account(file, run[i]))
  {
    forall k | 0 <= k <= i ensures MeetsOneAtMost(run[k]) {
      DistinctPidsMeetNobody(file, run, acts, k);
    }
    AccountIsAlwaysWhole(file, run, acts, i);
  }

  // --- Two of one number ----------------------------------------------------------------------------

  /** No number was given to three saves. */
  ghost predicate NoThreeShare(s: State) {
    forall a, b, c | a in s.begun && b in s.begun && c in s.begun && s.begun[a] == s.begun[b] == s.begun[c] ::
      a == b || b == c || a == c
  }

  /** Those a save has met are others of its number. */
  ghost predicate MetAreAlike(s: State) {
    forall i | i in s.saves ::
      && i in s.begun && s.begun[i] == s.saves[i].number && i !in s.saves[i].met
      && forall j | j in s.saves[i].met :: j in s.begun && s.begun[j] == s.begun[i]
  }

  lemma StartMeetsAlike(file: string, s: State, id: SaveId, p: ProcessId, bytes: seq<Byte>)
    requires MetAreAlike(s) && Enabled(file, s, Start(id, p, bytes))
    ensures MetAreAlike(Next(file, s, Start(id, p, bytes)))
  {
  }

  lemma StepMeetsAlike(file: string, s: State, a: Act, s': State)
    requires MetAreAlike(s) && Step(file, s, a, s')
    ensures MetAreAlike(s') && s.begun.Keys <= s'.begun.Keys && forall i | i in s.begun :: s'.begun[i] == s.begun[i]
  {
    if a.Start? {
      StartMeetsAlike(file, s, a.id, a.process, a.bytes);
    } else if !(a.Spawn? || a.Halt? || a.PowerLoss?) {
      SaveStep(file, s, a, s');
      forall i | i in s'.saves ensures s'.saves[i].number == s.saves[i].number && s'.saves[i].met == s.saves[i].met {
      }
    }
  }

  lemma FewMeet(s: State)
    requires MetAreAlike(s) && NoThreeShare(s)
    ensures MeetsOneAtMost(s)
  {
    forall i, a, b | i in s.saves && a in s.saves[i].met && b in s.saves[i].met ensures a == b {
      assert s.begun[i] == s.begun[a] == s.begun[b];
    }
  }

  lemma {:induction false} FewMeetSoFar(file: string, run: seq<State>, acts: seq<Act>, i: nat)
    requires IsRun(file, run, acts) && i < |run| && NoThreeShare(run[i])
    ensures MetAreAlike(run[i]) && forall k | 0 <= k <= i :: MeetsOneAtMost(run[k])
  {
    AlikeSoFar(file, run, acts, i);
    FewMeet(run[i]);
    if i > 0 {
      AlikeSoFar(file, run, acts, i - 1);
      ActAt(file, run, acts, i);
      StepMeetsAlike(file, run[i - 1], acts[i - 1], run[i]);
      FewMeetSoFar(file, run, acts, i - 1);
    }
  }

  lemma {:induction false} AlikeSoFar(file: string, run: seq<State>, acts: seq<Act>, i: nat)
    requires IsRun(file, run, acts) && i < |run|
    ensures MetAreAlike(run[i])
  {
    if i > 0 {
      AlikeSoFar(file, run, acts, i - 1);
      ActAt(file, run, acts, i);
      StepMeetsAlike(file, run[i - 1], acts[i - 1], run[i]);
    }
  }

  /** Two saves of one number do no harm, at once or not: as long as no number
      was given to three, the account file is whole. */
  lemma TwoAlikeAreSafe(file: string, run: seq<State>, acts: seq<Act>, i: nat)
    requires IsRun(file, run, acts) && i < |run| && NoThreeShare(run[i])
    ensures Whole(Account(file, run[0]), acts[..i], Account(file, run[i]))
  {
    FewMeetSoFar(file, run, acts, i);
    AccountIsAlwaysWhole(file, run, acts, i);
  }

  // --- Three of one number ------------------------------------------------------------------------

  ghost predicate Reachable(file: string, s: State) {
    exists run, acts :: IsRun(file, run, acts) && run[|acts|] == s
  }

  lemma Continues(file: string, s: State, a: Act, s': State)
    requires Reachable(file, s) && Step(file, s, a, s')
    ensures Reachable(file, s')
  {
    var run, acts :| IsRun(file, run, acts) && run[|acts|] == s;
    var run', acts' := run + [s'], acts + [a];
    forall i | 0 <= i < |acts'| ensures Step(file, run'[i], acts'[i], run'[i + 1]) {
      if i < |acts| {
        assert Step(file, run[i], acts[i], run[i + 1]);
      }
    }
    assert IsRun(file, run', acts') && run'[|acts'|] == s';
  }

  /** Three processes of pid 1, of which the first `n` have begun a save. */
  function Begun(n: nat): State {
    var one := Number(1, 0);
    var first := Save(0, one, [0], Opening, if n >= 3 then {1, 2} else if n == 2 then {1} else {});
    var second := Save(1, one, [], Opening, if n >= 3 then {0, 2} else {0});
    var third := Save(2, one, [1, 2], Opening, {0, 1});
    State(Disk(map[], map[]),
          map[0 := Process(1, if n >= 1 then 1 else 0), 1 := Process(1, if n >= 2 then 1 else 0),
              2 := Process(1, if n >= 3 then 1 else 0)],
          if n == 0 then map[] else if n == 1 then map[0 := first]
          else if n == 2 then map[0 := first, 1 := second] else map[0 := first, 1 := second, 2 := third],
          if n == 0 then map[] else if n == 1 then map[0 := one]
          else if n == 2 then map[0 := one, 1 := one] else map[0 := one, 1 := one, 2 := one])
  }

  lemma AllSpawned(file: string)
    ensures Reachable(file, Begun(0))
  {
    var s0 := State(Disk(map[], map[]), map[], map[], map[]);
    assert IsRun(file, [s0], []);
    var s1 := Next(file, s0, Spawn(0, 1));
    Continues(file, s0, Spawn(0, 1), s1);
    var s2 := Next(file, s1, Spawn(1, 1));
    Continues(file, s1, Spawn(1, 1), s2);
    Continues(file, s2, Spawn(2, 1), Next(file, s2, Spawn(2, 1)));
    assert Next(file, s2, Spawn(2, 1)).processes == Begun(0).processes;
  }

  /** What the save number `n` of the three writes. */
  function Bytes(n: nat): seq<Byte> {
    if n == 0 then [0] else if n == 1 then [] else [1, 2]
  }

  lemma FirstJoins()
    ensures Joined(Begun(0).saves, 0, 0, Number(1, 0), Bytes(0)) == Begun(1).saves
  {
    assert Alike(Begun(0).saves, Number(1, 0)) == {};
  }

  lemma SecondJoins()
    ensures Joined(Begun(1).saves, 1, 1, Number(1, 0), Bytes(1)) == Begun(2).saves
  {
    assert Alike(Begun(1).saves, Number(1, 0)) == {0};
    assert Begun(1).saves[0].met + {1} == Begun(2).saves[0].met;
  }

  lemma ThirdJoins()
    ensures Joined(Begun(2).saves, 2, 2, Number(1, 0), Bytes(2)) == Begun(3).saves
  {
    assert Alike(Begun(2).saves, Number(1, 0)) == {0, 1};
    assert Begun(2).saves[0].met + {2} == Begun(3).saves[0].met;
    assert Begun(2).saves[1].met + {2} == Begun(3).saves[1].met;
  }

  lemma BeginsNext(file: string, n: nat)
    requires n < 3
    ensures Step(file, Begun(n), Start(n, n, Bytes(n)), Begun(n + 1))
  {
    var s, a := Begun(n), Start(n, n, Bytes(n));
    assert Enabled(file, s, a);
    if n == 0 { FirstJoins(); } else if n == 1 { SecondJoins(); } else { ThirdJoins(); }
    var s', t := Next(file, s, a), Begun(n + 1);
    assert s'.processes == t.processes && s'.begun == t.begun && s'.disk == t.disk;
  }

  /** What becomes of them: the disk, and the saves of the first and third. */
  function Then(d: Disk, first: Phase, third: Phase, second: map<SaveId, Save>): State {
    var s := Begun(3);
    State(d, s.processes,
          second[0 := s.saves[0].(phase := first)][2 := s.saves[2].(phase := third)], s.begun)
  }

  function Turn(file: string, i: nat): State {
    var t := TempName(file, 1, 0);
    var waiting := map[1 := Begun(3).saves[1]];
    var removing := map[1 := Begun(3).saves[1].(phase := Removing)];
    var whole := map[0 := Data([0], true)];
    if i == 0 then Then(Disk(map[], map[]), Opening, Opening, waiting)
    else if i == 1 then Then(Disk(map[t := 0], map[0 := Data([], false)]), Writing(0, 0), Opening, waiting)
    else if i == 2 then Then(Disk(map[t := 0], map[0 := Data([0], false)]), Writing(0, 1), Opening, waiting)
    else if i == 3 then Then(Disk(map[t := 0], whole), Renaming(0), Opening, waiting)
    else if i == 4 then Then(Disk(map[t := 0], whole), Renaming(0), Opening, removing)
    else if i == 5 then Then(Disk(map[], whole), Renaming(0), Opening, map[])
    else if i == 6 then Then(Disk(map[t := 1], whole[1 := Data([], false)]), Renaming(0), Writing(1, 0), map[])
    else Then(Disk(map[t := 1], whole[1 := Data([1], false)]), Renaming(0), Writing(1, 1), map[])
  }

  function TurnAct(i: nat): Act {
    if i == 0 then Create(0, 0)
    else if i == 1 then Write(0, 1)
    else if i == 2 then Sync(0)
    else if i == 3 then Fail(1)
    else if i == 4 then Remove(1)
    else if i == 5 then Create(2, 1)
    else Write(2, 1)
  }

  lemma FirstTurns(file: string, i: nat)
    requires i < 2
    ensures Step(file, Turn(file, i), TurnAct(i), Turn(file, i + 1))
  {
    var s, a := Turn(file, i), TurnAct(i);
    assert Enabled(file, s, a);
    assert [0][..1] == [0];
    assert Next(file, s, a).saves == Turn(file, i + 1).saves;
    assert Next(file, s, a).disk == Turn(file, i + 1).disk;
  }

  lemma MiddleTurns(file: string, i: nat)
    requires 2 <= i < 4
    ensures Step(file, Turn(file, i), TurnAct(i), Turn(file, i + 1))
  {
    var s, a := Turn(file, i), TurnAct(i);
    assert Enabled(file, s, a);
    assert Next(file, s, a).saves == Turn(file, i + 1).saves;
    assert Next(file, s, a).disk == Turn(file, i + 1).disk;
  }

  lemma LaterTurns(file: string, i: nat)
    requires 4 <= i < 7
    ensures Step(file, Turn(file, i), TurnAct(i), Turn(file, i + 1))
  {
    var s, a := Turn(file, i), TurnAct(i);
    assert Enabled(file, s, a);
    assert [1, 2][..1] == [1];
    assert Next(file, s, a).saves == Turn(file, i + 1).saves;
    assert Next(file, s, a).disk == Turn(file, i + 1).disk;
  }

  lemma {:induction false} TurnIsReached(file: string, i: nat)
    requires i <= 7
    ensures Reachable(file, Turn(file, i))
  {
    if i == 0 {
      AllSpawned(file);
      ThreeHaveBegun(file, 3);
      assert Turn(file, 0).saves == Begun(3).saves;
    } else {
      TurnIsReached(file, i - 1);
      if i <= 2 { FirstTurns(file, i - 1); } else if i <= 4 { MiddleTurns(file, i - 1); }
          else { LaterTurns(file, i - 1); }
      Continues(file, Turn(file, i - 1), TurnAct(i - 1), Turn(file, i));
    }
  }

  lemma {:induction false} ThreeHaveBegun(file: string, n: nat)
    requires n <= 3
    ensures Reachable(file, Begun(n))
  {
    if n == 0 {
      AllSpawned(file);
    } else {
      ThreeHaveBegun(file, n - 1);
      BeginsNext(file, n - 1);
      Continues(file, Begun(n - 1), Start(n - 1, n - 1, Bytes(n - 1)), Begun(n));
    }
  }

  /** Three saves of one number are too many. In a run from an empty disk, the
      second takes the first one's temporary file for a leftover of its own and
      removes it, the third begins anew under the name, and the first renames
      what the third has written so far: the account file is a part of a save. */
  lemma ThreeAlikeExposeAPart(file: string) returns (s: State, s': State)
    ensures Reachable(file, s) && Step(file, s, Rename(0), s')
    ensures 2 in s.saves && s.saves[2].bytes == [1, 2] && Account(file, s') == Some(Data([1], false))
  {
    TurnIsReached(file, 7);
    TempNamesDiffer(file, 1, 0, 1, 0);
    s := Turn(file, 7);
    s' := Next(file, s, Rename(0));
  }
}
