/**
 Replacing one file by way of a temporary neighbour, against a
 filesystem that may fail at any stage, be read at any moment, and lose
 everything it has not synced.
 */
module Publication {
  import opened Base
  import opened Text

  type Bytes = string
  type Ino = nat

  datatype Inode = Inode(data: Bytes, synced: bool, restricted: bool)

  /**
   `dir` is the directory a live reader sees. `images` are the directories a
   crash may leave: every one since the last directory sync.
   */
  datatype Disk = Disk(dir: map<Text, Ino>, inodes: map<Ino, Inode>, images: set<map<Text, Ino>>) {
    ghost predicate Wf() {
      && (forall n <- dir :: dir[n] in inodes)
      && (forall d <- images :: forall n <- d :: d[n] in inodes)
      && dir in images
    }

    /** What a reader of `name` gets: the whole file, or nothing. */
    function Read(name: Text): Option<Bytes> {
      if name in dir && dir[name] in inodes then Some(inodes[dir[name]].data) else None
    }
  }

  /** What a restart finds: unsynced contents are torn. */
  datatype Found = Torn | Whole(contents: Option<Bytes>)

  function AfterCrash(disk: Disk, image: map<Text, Ino>, name: Text): Found {
    if name !in image then Whole(None)
    else if image[name] in disk.inodes && disk.inodes[image[name]].synced then
      Whole(Some(disk.inodes[image[name]].data))
    else Torn
  }

  /** At this moment a reader finds one of `live`, and a restart one of `durable`. */
  ghost predicate Sound(disk: Disk, name: Text, live: set<Option<Bytes>>, durable: set<Found>) {
    && disk.Read(name) in live
    && forall image <- disk.images :: AfterCrash(disk, image, name) in durable
  }

  /** All that a crash at this moment could leave of `name`. */
  ghost function CrashFinds(disk: Disk, name: Text): set<Found> {
    set image <- disk.images :: AfterCrash(disk, image, name)
  }

  /** No disk is excluded, torn or not: each is sound for what it already shows. */
  lemma EveryDiskIsSound(disk: Disk, name: Text)
    ensures Sound(disk, name, {disk.Read(name)}, CrashFinds(disk, name))
  {
  }

  /** Read now and after any crash, `name` is exactly this file. */
  ghost predicate Durable(disk: Disk, name: Text, contents: Bytes) {
    Sound(disk, name, {Some(contents)}, {Whole(Some(contents))})
  }

  datatype Stage = Create | Write | Sync | Permissions | Rename | DirectorySync

  predicate Preparing(stage: Stage) {
    stage.Write? || stage.Sync? || stage.Permissions?
  }

  predicate Committing(stage: Stage) {
    stage.Rename? || stage.DirectorySync?
  }

  /** What the system refused to do. */
  datatype Trouble = Reading | MakingDirectory | Removing | At(stage: Stage)

  /**
   The one directory the cache lives in, every moment it passed through, and
   every operation on it that was refused.
   */
  class FileSystem {
    var disk: Disk
    ghost var history: seq<Disk>
    ghost var troubles: seq<Trouble>

    ghost predicate Valid()
      reads this
    {
      disk.Wf()
    }

    constructor (disk: Disk)
      requires disk.Wf()
      ensures Valid() && this.disk == disk && history == [] && troubles == []
    {
      this.disk, history, troubles := disk, [], [];
    }

    /** A missing file is no trouble; anything else that keeps it from being read is. */
    method ReadFile(name: Text) returns (ok: bool, contents: Option<Bytes>)
      modifies this`troubles
      ensures ok ==> contents == disk.Read(name)
      ensures troubles == old(troubles) + if ok then [] else [Reading]
    {
      ok := *;
      contents := disk.Read(name);
      if !ok {
        troubles := troubles + [Reading];
      }
    }

    method MakeDirectory() returns (ok: bool)
      modifies this`troubles
      ensures troubles == old(troubles) + if ok then [] else [MakingDirectory]
    {
      ok := *;
      if !ok {
        troubles := troubles + [MakingDirectory];
      }
    }

    /** Opens a file that must not exist; any other failure is possible too. */
    method OpenNew(name: Text) returns (ino: Option<Ino>, exists?: bool)
      requires Valid()
      modifies this
      ensures Valid() && history == old(history) + [disk]
      ensures exists? <==> name in old(disk).dir
      ensures troubles == old(troubles) + if ino.None? && !exists? then [At(Create)] else []
      ensures exists? ==> ino.None?
      ensures ino.None? ==> disk == old(disk)
      ensures ino.Some? ==>
        && name !in old(disk).dir && ino.value !in old(disk).inodes
        && disk == Disk(old(disk).dir[name := ino.value],
                        old(disk).inodes[ino.value := Inode([], false, true)],
                        old(disk).images + {old(disk).dir[name := ino.value]})
    {
      var fails: bool := *;
      exists? := name in disk.dir;
      if exists? || fails {
        ino := None;
        troubles := troubles + if exists? then [] else [At(Create)];
      } else {
        var next := Fresh(disk.inodes);
        ino := Some(next);
        var dir := disk.dir[name := next];
        disk := Disk(dir, disk.inodes[next := Inode([], false, true)], disk.images + {dir});
      }
      history := history + [disk];
    }

    /** Appends `contents`; a failed write leaves any prefix of it behind. */
    method WriteAll(ino: Ino, contents: Bytes) returns (ok: bool, ghost part: Bytes)
      requires Valid() && ino in disk.inodes
      modifies this
      ensures Valid() && history == old(history) + [disk]
      ensures troubles == old(troubles) + if ok then [] else [At(Write)]
      ensures part <= contents && (ok ==> part == contents)
      ensures disk == Edited(old(disk), ino,
        old(disk).inodes[ino].(data := old(disk).inodes[ino].data + part, synced := false))
    {
      var cut: int := *;
      var written := if 0 <= cut < |contents| then contents[..cut] else contents;
      ok, part := written == contents, written;
      var was := disk.inodes[ino];
      disk := Edited(disk, ino, was.(data := was.data + written, synced := false));
      troubles := troubles + if ok then [] else [At(Write)];
      history := history + [disk];
    }

    method SyncFile(ino: Ino) returns (ok: bool)
      requires Valid() && ino in disk.inodes
      modifies this
      ensures Valid() && history == old(history) + [disk]
      ensures troubles == old(troubles) + if ok then [] else [At(Sync)]
      ensures disk == if ok
        then Edited(old(disk), ino, old(disk).inodes[ino].(synced := true))
        else old(disk)
    {
      ok := *;
      if ok {
        disk := Edited(disk, ino, disk.inodes[ino].(synced := true));
      }
      troubles := troubles + if ok then [] else [At(Sync)];
      history := history + [disk];
    }

    method Restrict(ino: Ino) returns (ok: bool)
      requires Valid() && ino in disk.inodes
      modifies this
      ensures Valid() && history == old(history) + [disk]
      ensures troubles == old(troubles) + if ok then [] else [At(Permissions)]
      ensures disk == if ok
        then Edited(old(disk), ino, old(disk).inodes[ino].(restricted := true))
        else old(disk)
    {
      ok := *;
      if ok {
        disk := Edited(disk, ino, disk.inodes[ino].(restricted := true));
      }
      troubles := troubles + if ok then [] else [At(Permissions)];
      history := history + [disk];
    }

    /** One atomic directory change, not yet durable. */
    method RenameOver(from: Text, to: Text) returns (ok: bool)
      requires Valid() && from in disk.dir
      modifies this
      ensures Valid() && history == old(history) + [disk]
      ensures troubles == old(troubles) + if ok then [] else [At(Rename)]
      ensures disk == if ok then Renamed(old(disk), from, to) else old(disk)
    {
      ok := *;
      if ok {
        disk := Renamed(disk, from, to);
      }
      troubles := troubles + if ok then [] else [At(Rename)];
      history := history + [disk];
    }

    method SyncDirectory() returns (ok: bool)
      requires Valid()
      modifies this
      ensures Valid() && history == old(history) + [disk]
      ensures troubles == old(troubles) + if ok then [] else [At(DirectorySync)]
      ensures disk == if ok then old(disk).(images := {old(disk).dir}) else old(disk)
    {
      ok := *;
      if ok {
        disk := disk.(images := {disk.dir});
      }
      troubles := troubles + if ok then [] else [At(DirectorySync)];
      history := history + [disk];
    }

    /** Removes `name` if it can; a failure is only logged by the caller. */
    method Remove(name: Text) returns (ok: bool)
      requires Valid()
      modifies this
      ensures Valid() && history == old(history) + [disk]
      ensures troubles == old(troubles) + if ok then [] else [Removing]
      ensures disk == if ok then Removed(old(disk), name) else old(disk)
    {
      ok := *;
      if ok {
        disk := Removed(disk, name);
      }
      troubles := troubles + if ok then [] else [Removing];
      history := history + [disk];
    }
  }

  /** After power is lost `torn` is what the unsynced files became. */
  function Restarted(inodes: map<Ino, Inode>, torn: Ino -> Bytes): map<Ino, Inode> {
    map ino <- inodes :: if inodes[ino].synced then inodes[ino] else inodes[ino].(data := torn(ino), synced := true)
  }

  /** A restart reads what the surviving image held whole; then it is all there is. */
  lemma RestartFinds(disk: Disk, image: map<Text, Ino>, torn: Ino -> Bytes, name: Text)
    requires disk.Wf() && image in disk.images && AfterCrash(disk, image, name).Whole?
    ensures
      var found := AfterCrash(disk, image, name).contents;
      var disk' := Disk(image, Restarted(disk.inodes, torn), {image});
      disk'.Read(name) == found && CrashFinds(disk', name) == {Whole(found)}
  {
    var disk' := Disk(image, Restarted(disk.inodes, torn), {image});
    assert AfterCrash(disk', image, name) == AfterCrash(disk, image, name);
    assert CrashFinds(disk', name) == {AfterCrash(disk', image, name)};
  }

  function Edited(disk: Disk, ino: Ino, node: Inode): Disk {
    disk.(inodes := disk.inodes[ino := node])
  }

  function Renamed(disk: Disk, from: Text, to: Text): Disk
    requires from in disk.dir
  {
    var dir := (disk.dir - {from})[to := disk.dir[from]];
    Disk(dir, disk.inodes, disk.images + {dir})
  }

  function Removed(disk: Disk, name: Text): Disk {
    var dir := disk.dir - {name};
    Disk(dir, disk.inodes, disk.images + {dir})
  }

  method Fresh(inodes: map<Ino, Inode>) returns (ino: Ino)
    ensures ino !in inodes
  {
    ino := 0;
    var rest := inodes.Keys;
    while ino in rest
      invariant forall i <- inodes.Keys :: i in rest || i < ino
      decreases |rest|
    {
      rest := rest - {ino};
      ino := ino + 1;
    }
  }

  // ---------- one publication ----------

  /** ".{file}.{random}.{attempt}.tmp": never the destination itself. */
  function TempName(file: Text, random: Text, attempt: Text): Text {
    "." + file + "." + random + "." + attempt + ".tmp"
  }

  lemma TempIsNotDestination(file: Text, random: Text, attempt: Text)
    ensures TempName(file, random, attempt) != file && Temporary(file, TempName(file, random, attempt))
  {
    assert |TempName(file, random, attempt)| > |file|;
  }

  /** Nothing reachable as `path`, live or after a crash, is inode `ino`. */
  ghost predicate Detached(disk: Disk, path: Text, ino: Ino) {
    && (path in disk.dir ==> disk.dir[path] != ino)
    && forall image <- disk.images :: path in image ==> image[path] != ino
  }

  /** The temporary file is in place and cannot be seen through `path`. */
  ghost predicate Staged(disk: Disk, path: Text, tmp: Text, ino: Ino) {
    && disk.Wf() && tmp != path && tmp in disk.dir && disk.dir[tmp] == ino
    && Detached(disk, path, ino)
  }

  lemma InodeEditIsUnseen(disk: Disk, path: Text, ino: Ino, node: Inode, live: set<Option<Bytes>>, durable: set<Found>)
    requires disk.Wf() && ino in disk.inodes && Detached(disk, path, ino)
    requires Sound(disk, path, live, durable)
    ensures Sound(Edited(disk, ino, node), path, live, durable)
  {
    var disk' := Edited(disk, ino, node);
    forall image <- disk'.images ensures AfterCrash(disk', image, path) == AfterCrash(disk, image, path) {
    }
  }

  lemma CreateIsUnseen(disk: Disk, path: Text, tmp: Text, ino: Ino, node: Inode, live: set<Option<Bytes>>, durable: set<Found>)
    requires disk.Wf() && tmp != path && ino !in disk.inodes
    requires Sound(disk, path, live, durable)
    ensures var dir := disk.dir[tmp := ino];
      var disk' := Disk(dir, disk.inodes[ino := node], disk.images + {dir});
      Sound(disk', path, live, durable) && Staged(disk', path, tmp, ino)
  {
    var dir := disk.dir[tmp := ino];
    var disk' := Disk(dir, disk.inodes[ino := node], disk.images + {dir});
    forall image <- disk'.images
      ensures AfterCrash(disk', image, path) == AfterCrash(disk, if image == dir then disk.dir else image, path)
    {
    }
  }

  lemma RemoveIsUnseen(disk: Disk, path: Text, tmp: Text, live: set<Option<Bytes>>, durable: set<Found>)
    requires disk.Wf() && tmp != path && Sound(disk, path, live, durable)
    ensures Removed(disk, tmp).Wf() && Sound(Removed(disk, tmp), path, live, durable)
  {
    var disk' := Removed(disk, tmp);
    forall image <- disk'.images
      ensures AfterCrash(disk', image, path) == AfterCrash(disk, if image == disk'.dir then disk.dir else image, path)
    {
    }
  }

  /** The rename is the one moment the destination changes, whole and synced. */
  lemma RenamePublishes(disk: Disk, path: Text, tmp: Text, ino: Ino, live: set<Option<Bytes>>, durable: set<Found>)
    requires Staged(disk, path, tmp, ino) && disk.inodes[ino].synced
    requires Sound(disk, path, live, durable)
    ensures var published := Some(disk.inodes[ino].data);
      var disk' := Renamed(disk, tmp, path);
      disk'.Wf() && disk'.Read(path) == published && tmp !in disk'.dir
      && Sound(disk', path, {published}, durable + {Whole(published)})
  {
    var disk' := Renamed(disk, tmp, path);
    forall image <- disk'.images
      ensures image != disk'.dir ==> AfterCrash(disk', image, path) == AfterCrash(disk, image, path)
      ensures image == disk'.dir ==> AfterCrash(disk', image, path) == Whole(Some(disk.inodes[ino].data))
    {
    }
  }

  lemma SoundWidens(disk: Disk, path: Text, live: set<Option<Bytes>>, durable: set<Found>, live': set<Option<Bytes>>, durable': set<Found>)
    requires Sound(disk, path, live, durable) && live <= live' && durable <= durable'
    ensures Sound(disk, path, live', durable')
  {
  }

  ghost predicate AllSound(h: seq<Disk>, since: nat, path: Text, live: set<Option<Bytes>>, durable: set<Found>) {
    forall k :: since <= k < |h| ==> Sound(h[k], path, live, durable)
  }

  lemma AllSoundWidens(h: seq<Disk>, since: nat, path: Text, live: set<Option<Bytes>>, durable: set<Found>, live': set<Option<Bytes>>, durable': set<Found>)
    requires AllSound(h, since, path, live, durable) && live <= live' && durable <= durable'
    ensures AllSound(h, since, path, live', durable')
  {
  }

  // ---------- why a write fails ----------

  /** Every one of the sixteen temporary names is taken. */
  predicate Crowded(disk: Disk, path: Text, random: nat -> Text, attempts: nat -> Text) {
    forall k: nat | k < 16 :: TempName(path, random(k), attempts(k)) in disk.dir
  }

  /** The stage a failed write names was refused, first of all, or was to fail, or had no name left. */
  ghost predicate Blamed(was: seq<Trouble>, now: seq<Trouble>, fault: Option<Stage>, stage: Stage, crowded: bool) {
    was + [At(stage)] <= now || fault == Some(stage) || (stage.Create? && crowded)
  }

  // ---------- what a write leaves alone ----------

  /** `name` reads as it did, and no crash can leave of it what none could before. */
  ghost predicate Unseen(was: Disk, now: Disk, name: Text) {
    now.Read(name) == was.Read(name) && CrashFinds(now, name) <= CrashFinds(was, name)
  }

  /** Names a write to `path` may borrow for its temporary file. */
  predicate Temporary(path: Text, name: Text) {
    "." + path + "." <= name
  }

  /** A write to `path` went unseen everywhere else, save names it may borrow and nobody held. */
  ghost predicate OthersKept(was: Disk, now: Disk, path: Text) {
    forall n | n != path && (n in was.dir || !Temporary(path, n)) :: Unseen(was, now, n)
  }

  ghost predicate AllKept(h: seq<Disk>, since: nat, was: Disk, path: Text) {
    forall k :: since <= k < |h| ==> OthersKept(was, h[k], path)
  }

  function Entry(dir: map<Text, Ino>, name: Text): Option<Ino> {
    if name in dir then Some(dir[name]) else None
  }

  ghost predicate Agree(a: map<Text, Ino>, b: map<Text, Ino>, names: set<Text>) {
    forall n | n !in names :: Entry(a, n) == Entry(b, n)
  }

  ghost predicate Among(image: map<Text, Ino>, images: set<map<Text, Ino>>, names: set<Text>) {
    exists w <- images :: Agree(image, w, names)
  }

  /** `now` came from `was` by changing these names, and inodes `was` did not have. */
  ghost predicate Beside(was: Disk, now: Disk, names: set<Text>) {
    && (forall ino <- was.inodes :: ino in now.inodes && now.inodes[ino] == was.inodes[ino])
    && Agree(now.dir, was.dir, names)
    && (forall image <- now.images :: Among(image, was.images, names))
  }

  ghost predicate AllBeside(h: seq<Disk>, since: nat, was: Disk, names: set<Text>) {
    forall k :: since <= k < |h| ==> Beside(was, h[k], names)
  }

  lemma BesideItself(disk: Disk, names: set<Text>)
    ensures Beside(disk, disk, names)
  {
    forall image <- disk.images ensures Among(image, disk.images, names) {
      assert Agree(image, image, names);
    }
  }

  /** Directory changes to `names`, and inodes that are new: all still beside. */
  lemma BesideGrows(was: Disk, now: Disk, next: Disk, names: set<Text>)
    requires was.Wf() && Beside(was, now, names)
    requires forall ino <- was.inodes :: ino in next.inodes && next.inodes[ino] == now.inodes[ino]
    requires Agree(next.dir, now.dir, names) && next.images <= now.images + {next.dir}
    ensures Beside(was, next, names)
  {
    forall n | n !in names ensures Entry(next.dir, n) == Entry(was.dir, n) {
      assert Entry(next.dir, n) == Entry(now.dir, n);
    }
    assert Agree(next.dir, was.dir, names);
  }

  lemma EditIsBeside(was: Disk, now: Disk, ino: Ino, node: Inode, names: set<Text>)
    requires was.Wf() && Beside(was, now, names) && ino !in was.inodes
    ensures Beside(was, Edited(now, ino, node), names)
  {
    BesideGrows(was, now, Edited(now, ino, node), names);
  }

  lemma CreateIsBeside(was: Disk, tmp: Text, ino: Ino, node: Inode, names: set<Text>)
    requires was.Wf() && ino !in was.inodes && tmp in names
    ensures
      var dir := was.dir[tmp := ino];
      Beside(was, Disk(dir, was.inodes[ino := node], was.images + {dir}), names)
  {
    BesideItself(was, names);
    var dir := was.dir[tmp := ino];
    BesideGrows(was, was, Disk(dir, was.inodes[ino := node], was.images + {dir}), names);
  }

  lemma RenameIsBeside(was: Disk, now: Disk, from: Text, to: Text, names: set<Text>)
    requires was.Wf() && Beside(was, now, names) && from in now.dir && from in names && to in names
    ensures Beside(was, Renamed(now, from, to), names)
  {
    BesideGrows(was, now, Renamed(now, from, to), names);
  }

  lemma RemoveIsBeside(was: Disk, now: Disk, name: Text, names: set<Text>)
    requires was.Wf() && Beside(was, now, names) && name in names
    ensures Beside(was, Removed(now, name), names)
  {
    BesideGrows(was, now, Removed(now, name), names);
  }

  lemma SyncIsBeside(was: Disk, now: Disk, names: set<Text>)
    requires was.Wf() && Beside(was, now, names)
    ensures Beside(was, now.(images := {now.dir}), names)
  {
    BesideGrows(was, now, now.(images := {now.dir}), names);
  }

  lemma BesideIsUnseen(was: Disk, now: Disk, names: set<Text>, name: Text)
    requires was.Wf() && Beside(was, now, names) && name !in names
    ensures Unseen(was, now, name)
  {
    assert Entry(now.dir, name) == Entry(was.dir, name);
    forall image <- now.images ensures AfterCrash(now, image, name) in CrashFinds(was, name) {
      var w :| w in was.images && Agree(image, w, names);
      assert Entry(image, name) == Entry(w, name);
      assert AfterCrash(now, image, name) == AfterCrash(was, w, name);
    }
  }

  lemma BesideKeepsOthers(was: Disk, now: Disk, path: Text, tmp: Text)
    requires was.Wf() && Beside(was, now, {path, tmp}) && tmp !in was.dir && Temporary(path, tmp)
    ensures OthersKept(was, now, path)
  {
    hide Unseen, Beside;
    forall n | n != path && (n in was.dir || !Temporary(path, n)) ensures Unseen(was, now, n) {
      BesideIsUnseen(was, now, {path, tmp}, n);
    }
  }

  lemma AllBesideKeepsOthers(h: seq<Disk>, since: nat, was: Disk, path: Text, tmp: Text)
    requires was.Wf() && AllBeside(h, since, was, {path, tmp}) && tmp !in was.dir && Temporary(path, tmp)
    ensures AllKept(h, since, was, path)
  {
    hide Beside, OthersKept;
    forall k | since <= k < |h| ensures OthersKept(was, h[k], path) {
      BesideKeepsOthers(was, h[k], path, tmp);
    }
  }

  lemma KeepsItself(disk: Disk, path: Text)
    ensures OthersKept(disk, disk, path)
  {
  }

  lemma UnseenTwice(a: Disk, b: Disk, c: Disk, name: Text)
    requires Unseen(a, b, name) && Unseen(b, c, name)
    ensures Unseen(a, c, name)
  {
  }

  lemma StagedEdit(was: Disk, start: Disk, path: Text, tmp: Text, ino: Ino, node: Inode,
                   live: set<Option<Bytes>>, durable: set<Found>)
    requires was.Wf() && ino !in was.inodes && Beside(was, start, {path, tmp})
    requires Staged(start, path, tmp, ino) && Sound(start, path, live, durable)
    ensures
      var now := Edited(start, ino, node);
      Staged(now, path, tmp, ino) && Sound(now, path, live, durable) && Beside(was, now, {path, tmp})
  {
    InodeEditIsUnseen(start, path, ino, node, live, durable);
    EditIsBeside(was, start, ino, node, {path, tmp});
    hide Sound, Beside;
  }

  /** One more moment, as unseen as the ones before it. */
  lemma MomentAdded(h: seq<Disk>, since: nat, now: Disk, was: Disk, path: Text, tmp: Text,
                    live: set<Option<Bytes>>, durable: set<Found>)
    requires AllSound(h, since, path, live, durable) && AllBeside(h, since, was, {path, tmp})
    requires Sound(now, path, live, durable) && Beside(was, now, {path, tmp})
    ensures AllSound(h + [now], since, path, live, durable) && AllBeside(h + [now], since, was, {path, tmp})
  {
    hide Sound, Beside;
  }

  lemma NoMoments(h: seq<Disk>, was: Disk, path: Text, tmp: Text, live: set<Option<Bytes>>, durable: set<Found>)
    ensures AllSound(h, |h|, path, live, durable) && AllBeside(h, |h|, was, {path, tmp})
  {
  }

  lemma StagedIsThere(disk: Disk, path: Text, tmp: Text, ino: Ino)
    requires Staged(disk, path, tmp, ino)
    ensures disk.Wf() && ino in disk.inodes
  {
  }

  /** Writes the contents and syncs them. */
  method Fill(fs: FileSystem, path: Text, tmp: Text, ino: Ino, contents: Bytes, fault: Option<Stage>,
                 ghost was: Disk, ghost live: set<Option<Bytes>>, ghost durable: set<Found>)
    returns (r: Result<(), Stage>)
    requires Staged(fs.disk, path, tmp, ino) && Sound(fs.disk, path, live, durable)
    requires fs.disk.inodes[ino].data == []
    requires was.Wf() && ino !in was.inodes && Beside(was, fs.disk, {path, tmp})
    modifies fs
    ensures Beside(was, fs.disk, {path, tmp}) && AllBeside(fs.history, |old(fs.history)|, was, {path, tmp})
    ensures Staged(fs.disk, path, tmp, ino) && Sound(fs.disk, path, live, durable)
    ensures old(fs.history) <= fs.history
    ensures AllSound(fs.history, |old(fs.history)|, path, live, durable)
    ensures fs.disk == Edited(old(fs.disk), ino, fs.disk.inodes[ino])
    ensures r.Ok? ==>
      fs.disk.inodes[ino] == Inode(contents, true, old(fs.disk).inodes[ino].restricted)
    ensures r.Err? ==> r.error.Write? || r.error.Sync?
    ensures fault == Some(Write) ==> fs.disk.inodes[ino].data <= contents[..|contents| / 2]
    ensures old(fs.troubles) <= fs.troubles
    ensures r.Ok? ==> fs.troubles == old(fs.troubles) && (fault.Some? ==> !fault.value.Write? && !fault.value.Sync?)
    ensures r.Err? ==> Blamed(old(fs.troubles), fs.troubles, fault, r.error, false)
  {
    hide Sound, Beside, Staged, AllSound, AllBeside;
    StagedIsThere(fs.disk, path, tmp, ino);
    ghost var start, before := fs.disk, fs.history;
    NoMoments(before, was, path, tmp, live, durable);
    var part := if fault == Some(Write) then contents[..|contents| / 2] else contents;
    var ok, _ := fs.WriteAll(ino, part);
    assert fs.disk == Edited(start, ino, fs.disk.inodes[ino]);
    StagedEdit(was, start, path, tmp, ino, fs.disk.inodes[ino], live, durable);
    MomentAdded(before, |old(fs.history)|, fs.disk, was, path, tmp, live, durable);
    r := if !ok || fault == Some(Write) then Err(Write) else if fault == Some(Sync) then Err(Sync) else Ok(());
    if r.Ok? {
      before := fs.history;
      ok := fs.SyncFile(ino);
      assert fs.disk == Edited(start, ino, fs.disk.inodes[ino]);
      StagedEdit(was, start, path, tmp, ino, fs.disk.inodes[ino], live, durable);
      MomentAdded(before, |old(fs.history)|, fs.disk, was, path, tmp, live, durable);
      r := if ok then Ok(()) else Err(Sync);
    }
  }

  /** Fills, syncs and restricts the staged file, without the reader noticing. */
  method Prepare(fs: FileSystem, path: Text, tmp: Text, ino: Ino, contents: Bytes, fault: Option<Stage>,
                 ghost was: Disk, ghost live: set<Option<Bytes>>, ghost durable: set<Found>)
    returns (r: Result<(), Stage>)
    requires Staged(fs.disk, path, tmp, ino) && Sound(fs.disk, path, live, durable)
    requires fs.disk.inodes[ino].data == []
    requires was.Wf() && ino !in was.inodes && Beside(was, fs.disk, {path, tmp})
    modifies fs
    ensures Beside(was, fs.disk, {path, tmp}) && AllBeside(fs.history, |old(fs.history)|, was, {path, tmp})
    ensures Staged(fs.disk, path, tmp, ino) && Sound(fs.disk, path, live, durable)
    ensures old(fs.history) <= fs.history
    ensures AllSound(fs.history, |old(fs.history)|, path, live, durable)
    ensures fs.disk == Edited(old(fs.disk), ino, fs.disk.inodes[ino])
    ensures r.Ok? ==> fs.disk.inodes[ino] == Inode(contents, true, true)
    ensures r.Err? ==> Preparing(r.error)
    ensures old(fs.troubles) <= fs.troubles
    ensures r.Ok? ==> fs.troubles == old(fs.troubles) && (fault.Some? ==> !Preparing(fault.value))
    ensures r.Err? ==> Blamed(old(fs.troubles), fs.troubles, fault, r.error, false)
  {
    hide Sound, Beside, Staged, AllSound, AllBeside;
    StagedIsThere(fs.disk, path, tmp, ino);
    ghost var start, before := fs.disk, fs.history;
    r := Fill(fs, path, tmp, ino, contents, fault, was, live, durable);
    if r.Ok? && fault == Some(Permissions) {
      return Err(Permissions);
    }
    if r.Ok? {
      before := fs.history;
      var ok := fs.Restrict(ino);
      assert fs.disk == Edited(start, ino, fs.disk.inodes[ino]);
      StagedEdit(was, start, path, tmp, ino, fs.disk.inodes[ino], live, durable);
      MomentAdded(before, |old(fs.history)|, fs.disk, was, path, tmp, live, durable);
      r := if ok then Ok(()) else Err(Permissions);
    }
  }

  /** Sixteen attempts at a private temporary file under a fresh name. */
  method CreatePending(fs: FileSystem, path: Text, random: nat -> Text, attempts: nat -> Text,
                       ghost live: set<Option<Bytes>>, ghost durable: set<Found>)
    returns (pending: Option<(Text, Ino)>)
    requires fs.Valid() && Sound(fs.disk, path, live, durable)
    modifies fs
    ensures fs.Valid() && Sound(fs.disk, path, live, durable)
    ensures old(fs.history) <= fs.history
    ensures AllSound(fs.history, |old(fs.history)|, path, live, durable)
    ensures pending.None? ==> fs.disk == old(fs.disk)
    ensures old(fs.troubles) <= fs.troubles
    ensures pending.Some? ==> fs.troubles == old(fs.troubles) && !Crowded(old(fs.disk), path, random, attempts)
    ensures pending.None? ==>
      Blamed(old(fs.troubles), fs.troubles, None, Create, Crowded(old(fs.disk), path, random, attempts))
    ensures AllKept(fs.history, |old(fs.history)|, old(fs.disk), path)
    ensures pending.Some? ==>
      var (tmp, ino) := pending.value;
      && Temporary(path, tmp) && Beside(old(fs.disk), fs.disk, {path, tmp})
      && tmp !in old(fs.disk).dir && ino !in old(fs.disk).inodes
      && Staged(fs.disk, path, tmp, ino) && fs.disk.inodes[ino].data == []
      && fs.disk.dir == old(fs.disk).dir[tmp := ino]
      && fs.disk.inodes == old(fs.disk).inodes[ino := fs.disk.inodes[ino]]
  {
    hide Sound, Staged, Beside, OthersKept, TempName, Temporary;
    KeepsItself(fs.disk, path);
    for attempt := 0 to 16
      invariant fs.disk == old(fs.disk) && old(fs.history) <= fs.history
      invariant AllSound(fs.history, |old(fs.history)|, path, live, durable)
      invariant AllKept(fs.history, |old(fs.history)|, old(fs.disk), path)
      invariant fs.troubles == old(fs.troubles)
      invariant forall k: nat | k < attempt :: TempName(path, random(k), attempts(k)) in fs.disk.dir
    {
      var tmp := TempName(path, random(attempt), attempts(attempt));
      TempIsNotDestination(path, random(attempt), attempts(attempt));
      var ino, exists? := fs.OpenNew(tmp);
      match ino {
        case Some(node) =>
          CreateIsUnseen(old(fs.disk), path, tmp, node, Inode([], false, true), live, durable);
          CreateIsBeside(old(fs.disk), tmp, node, Inode([], false, true), {path, tmp});
          BesideKeepsOthers(old(fs.disk), fs.disk, path, tmp);
          return Some((tmp, node));
        case None =>
          if !exists? { return None; }
      }
    }
    return None;
  }

  /** The drop of an uncommitted pending file. */
  method RemovePending(fs: FileSystem, path: Text, tmp: Text,
                       ghost was: Disk, ghost live: set<Option<Bytes>>, ghost durable: set<Found>)
    requires fs.Valid() && tmp != path && Sound(fs.disk, path, live, durable)
    requires was.Wf() && Beside(was, fs.disk, {path, tmp})
    modifies fs
    ensures Beside(was, fs.disk, {path, tmp}) && AllBeside(fs.history, |old(fs.history)|, was, {path, tmp})
    ensures fs.Valid() && Sound(fs.disk, path, live, durable)
    ensures old(fs.history) <= fs.history
    ensures AllSound(fs.history, |old(fs.history)|, path, live, durable)
    ensures
      || (fs.disk == Removed(old(fs.disk), tmp) && fs.troubles == old(fs.troubles))
      || (fs.disk == old(fs.disk) && fs.troubles == old(fs.troubles) + [Removing])
  {
    hide Beside;
    var _ := fs.Remove(tmp);
    RemoveIsBeside(was, old(fs.disk), tmp, {path, tmp});
    RemoveIsUnseen(old(fs.disk), path, tmp, live, durable);
  }

  /** Renames the finished file over the destination, then syncs the directory. */
  method Commit(fs: FileSystem, path: Text, tmp: Text, ino: Ino, fault: Option<Stage>,
                ghost was: Disk, ghost live: set<Option<Bytes>>, ghost durable: set<Found>)
    returns (r: Result<(), Stage>)
    requires Staged(fs.disk, path, tmp, ino) && Sound(fs.disk, path, live, durable)
    requires fs.disk.inodes[ino].synced
    requires was.Wf() && Beside(was, fs.disk, {path, tmp})
    modifies fs
    ensures Beside(was, fs.disk, {path, tmp}) && AllBeside(fs.history, |old(fs.history)|, was, {path, tmp})
    ensures fs.Valid() && old(fs.history) <= fs.history
    ensures r.Err? ==> Committing(r.error)
    ensures old(fs.troubles) <= fs.troubles
    ensures r.Ok? ==> fs.troubles == old(fs.troubles) && (fault.Some? ==> !Committing(fault.value))
    ensures r.Err? ==> Blamed(old(fs.troubles), fs.troubles, fault, r.error, false)
    ensures r == Err(Rename) ==> fs.disk == old(fs.disk)
    ensures r != Err(Rename) ==>
      fs.disk.dir == Renamed(old(fs.disk), tmp, path).dir && fs.disk.inodes == old(fs.disk).inodes
    ensures var published := Some(old(fs.disk).inodes[ino].data);
      && AllSound(fs.history, |old(fs.history)|, path, live + {published}, durable + {Whole(published)})
      && (r == Err(DirectorySync) ==> Sound(fs.disk, path, {published}, durable + {Whole(published)}))
      && (r.Ok? ==> Durable(fs.disk, path, published.value))
  {
    hide Beside;
    ghost var published := Some(fs.disk.inodes[ino].data);
    RenameIsBeside(was, fs.disk, tmp, path, {path, tmp});
    SyncIsBeside(was, Renamed(fs.disk, tmp, path), {path, tmp});
    RenamePublishes(fs.disk, path, tmp, ino, live, durable);
    SoundWidens(fs.disk, path, live, durable, live + {published}, durable + {Whole(published)});
    if fault == Some(Rename) { return Err(Rename); }
    var ok := fs.RenameOver(tmp, path);
    if !ok { return Err(Rename); }
    SoundWidens(fs.disk, path, {published}, durable + {Whole(published)}, live + {published}, durable + {Whole(published)});
    if fault == Some(DirectorySync) { return Err(DirectorySync); }
    ok := fs.SyncDirectory();
    if !ok { return Err(DirectorySync); }
    return Ok(());
  }

  /** Carries a created pending file to its rename, or drops it. */
  method PublishPending(fs: FileSystem, path: Text, tmp: Text, ino: Ino, contents: Bytes, fault: Option<Stage>,
                        ghost was: Disk, ghost live: set<Option<Bytes>>, ghost durable: set<Found>)
    returns (r: Result<(), Stage>)
    requires Staged(fs.disk, path, tmp, ino) && Sound(fs.disk, path, live, durable)
    requires fs.disk.inodes[ino].data == []
    requires was.Wf() && ino !in was.inodes && Beside(was, fs.disk, {path, tmp})
    modifies fs
    ensures Beside(was, fs.disk, {path, tmp}) && AllBeside(fs.history, |old(fs.history)|, was, {path, tmp})
    ensures fs.Valid() && old(fs.history) <= fs.history
    ensures AllSound(fs.history, |old(fs.history)|, path, live + {Some(contents)}, durable + {Whole(Some(contents))})
    ensures r.Err? && r.error != DirectorySync ==> Sound(fs.disk, path, live, durable)
    ensures r == Err(DirectorySync) ==>
      Sound(fs.disk, path, {Some(contents)}, durable + {Whole(Some(contents))})
    ensures r.Ok? ==> Durable(fs.disk, path, contents)
    ensures old(fs.troubles) <= fs.troubles
    ensures r.Ok? ==> fs.troubles == old(fs.troubles) && (fault.Some? ==> fault.value.Create?)
    ensures r.Err? ==> Blamed(old(fs.troubles), fs.troubles, fault, r.error, false)
    ensures fs.disk.dir.Keys <= old(fs.disk).dir.Keys + {path}
    ensures tmp !in fs.disk.dir || (|fs.troubles| > |old(fs.troubles)| && fs.troubles[|fs.troubles| - 1] == Removing)
    ensures ino in fs.disk.inodes && fs.disk.inodes == old(fs.disk).inodes[ino := fs.disk.inodes[ino]]
    ensures forall n <- old(fs.disk).dir | n != path && n != tmp ::
      n in fs.disk.dir && fs.disk.dir[n] == old(fs.disk).dir[n]
  {
    hide Sound, Detached, Beside;
    ghost var wide, widest := live + {Some(contents)}, durable + {Whole(Some(contents))};
    r := Prepare(fs, path, tmp, ino, contents, fault, was, live, durable);
    AllSoundWidens(fs.history, |old(fs.history)|, path, live, durable, wide, widest);
    if r.Ok? {
      r := Commit(fs, path, tmp, ino, fault, was, live, durable);
    }
    if r.Err? && r.error != DirectorySync {
      ghost var since := |fs.history|;
      RemovePending(fs, path, tmp, was, live, durable);
      AllSoundWidens(fs.history, since, path, live, durable, wide, widest);
    }
  }

  /**
   Replaces `path` with `contents`, on any disk. At every moment a reader sees the
   whole old or the whole new file, and a crash leaves what one could have left
   before, or the whole new file. Unless the rename happened nothing changed for
   either; success survives any crash, and a failure names the stage that failed.
   No temporary name stays behind unless its removal was refused.
   */
  method WritePrivateFile(fs: FileSystem, path: Text, contents: Bytes, fault: Option<Stage>,
                          random: nat -> Text, attempts: nat -> Text)
    returns (r: Result<(), Stage>)
    requires fs.Valid()
    modifies fs
    ensures fs.Valid() && old(fs.history) <= fs.history
    ensures OthersKept(old(fs.disk), fs.disk, path) && AllKept(fs.history, |old(fs.history)|, old(fs.disk), path)
    ensures AllSound(fs.history, |old(fs.history)|, path,
                     {old(fs.disk).Read(path), Some(contents)},
                     CrashFinds(old(fs.disk), path) + {Whole(Some(contents))})
    ensures r.Err? && r.error != DirectorySync ==>
      Sound(fs.disk, path, {old(fs.disk).Read(path)}, CrashFinds(old(fs.disk), path))
    ensures r == Err(DirectorySync) ==>
      Sound(fs.disk, path, {Some(contents)}, CrashFinds(old(fs.disk), path) + {Whole(Some(contents))})
    ensures r.Ok? ==> Durable(fs.disk, path, contents)
    ensures old(fs.troubles) <= fs.troubles
    ensures r.Ok? ==>
      fs.troubles == old(fs.troubles) && fault.None? && !Crowded(old(fs.disk), path, random, attempts)
    ensures r.Err? ==>
      Blamed(old(fs.troubles), fs.troubles, fault, r.error, Crowded(old(fs.disk), path, random, attempts))
    ensures fs.disk.dir.Keys <= old(fs.disk).dir.Keys + {path} ||
            (|fs.troubles| > |old(fs.troubles)| && fs.troubles[|fs.troubles| - 1] == Removing)
  {
    hide Sound, Staged, Durable, Beside, OthersKept, Temporary;
    KeepsItself(fs.disk, path);
    ghost var live, durable := {fs.disk.Read(path)}, CrashFinds(fs.disk, path);
    ghost var wide, widest := {fs.disk.Read(path), Some(contents)}, durable + {Whole(Some(contents))};
    EveryDiskIsSound(fs.disk, path);
    if fault == Some(Create) { return Err(Create); }
    var pending := CreatePending(fs, path, random, attempts, live, durable);
    AllSoundWidens(fs.history, |old(fs.history)|, path, live, durable, wide, widest);
    match pending {
      case None => r := Err(Create);
      case Some((tmp, ino)) =>
        ghost var since := |fs.history|;
        r := PublishPending(fs, path, tmp, ino, contents, fault, old(fs.disk), live, durable);
        BesideKeepsOthers(old(fs.disk), fs.disk, path, tmp);
        AllBesideKeepsOthers(fs.history, since, old(fs.disk), path, tmp);
        assert wide == live + {Some(contents)};
    }
  }
}
