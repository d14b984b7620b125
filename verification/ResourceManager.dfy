/**
 The list of client mods and its cache of hashes. Refreshing rehashes only the files whose time or size say that
 they have changed; the list must nevertheless be the one that rehashing every file would give.
 */
module ResourceManager {
  import opened Octets

  const CHUNK := 4096

  datatype File = Regular(content: Bytes, lastWrite: int) | Directory

  datatype DbEntry = DbEntry(lastWrite: int, hash: string, fileSize: nat, isProtected: bool, exists_: bool)

  datatype Mod = Mod(fileName: string, fileSize: nat, hash: string, isProtected: bool)

  type Files = map<string, File>
  type Db = map<string, DbEntry>
  type Digest = Bytes -> string

  /** The extension of a file name starts at its last dot, unless that is the name's first character. */
  predicate IsZip(name: string) {
    |name| > 4 && name[|name| - 4..] == ".zip"
  }

  /** The mods of the folder: the regular files with the right extension. */
  predicate IsMod(files: Files, name: string) {
    name in files && IsZip(name) && files[name].Regular?
  }

  predicate Cached(db: Db, name: string, file: File)
    requires file.Regular?
  {
    name in db && !(file.lastWrite > db[name].lastWrite || |file.content| != db[name].fileSize)
  }

  /**
   The files whose hashing ends in an exception, and those that can be read only up to some byte, with that length. A
   file that cannot be opened is one of length 0. Reading only a part is no exception.
   */
  datatype Disk = Disk(fails: set<string>, short: map<string, nat>)

  const SOUND := Disk({}, map[])

  function Readable(disk: Disk, name: string, content: Bytes): Bytes {
    if name in disk.short && disk.short[name] < |content| then content[..disk.short[name]] else content
  }

  /** The entry of a file that is hashed now: the hash of what could be read, with the size and time of the file. */
  function Hashed(digest: Digest, file: File, fed: Bytes): DbEntry
    requires file.Regular?
  {
    DbEntry(file.lastWrite, digest(fed), |file.content|, false, false)
  }

  /** A mod is listed unless it had to be hashed and that failed. */
  predicate IsListed(files: Files, disk: Disk, db: Db, name: string) {
    IsMod(files, name) && (Cached(db, name, files[name]) || name !in disk.fails)
  }

  function EntryOf(digest: Digest, files: Files, disk: Disk, db: Db, name: string): DbEntry
    requires IsMod(files, name)
  {
    if Cached(db, name, files[name]) then db[name]
    else Hashed(digest, files[name], Readable(disk, name, files[name].content))
  }

  function RefreshedDb(digest: Digest, files: Files, disk: Disk, db: Db): Db {
    map name | name in files && IsListed(files, disk, db, name) :: EntryOf(digest, files, disk, db, name)
  }

  function ModOf(digest: Digest, files: Files, disk: Disk, db: Db, name: string): Mod
    requires IsMod(files, name)
  {
    var entry := EntryOf(digest, files, disk, db, name);
    Mod(name, |files[name].content|, entry.hash, entry.isProtected)
  }

  /** The mods of the names given, in that order. */
  function Listing(digest: Digest, files: Files, disk: Disk, db: Db, names: seq<string>): seq<Mod>
    decreases |names|
  {
    if names == [] then []
    else
      var last := |names| - 1;
      Listing(digest, files, disk, db, names[..last])
      + if IsListed(files, disk, db, names[last]) then [ModOf(digest, files, disk, db, names[last])] else []
  }

  /** A directory is iterated in some order, every entry once. */
  ghost predicate Iterates(files: Files, names: seq<string>) {
    && (forall name :: name in names <==> name in files)
    && (forall i, j | 0 <= i < j < |names| :: names[i] != names[j])
  }

  ghost predicate NoMarks(db: Db) {
    forall name | name in db :: !db[name].exists_
  }

  function Protect(db: Db, name: string, p: bool): Db {
    if name in db then db[name := db[name].(isProtected := p)] else db
  }

  function ProtectFirst(mods: seq<Mod>, name: string, p: bool): seq<Mod> {
    if mods == [] then []
    else if mods[0].fileName == name then [mods[0].(isProtected := p)] + mods[1..]
    else [mods[0]] + ProtectFirst(mods[1..], name, p)
  }

  lemma {:induction false} ProtectFirstIs(mods: seq<Mod>, i: nat, name: string, p: bool)
    requires i <= |mods| && (forall j | 0 <= j < i :: mods[j].fileName != name)
    requires i < |mods| ==> mods[i].fileName == name
    ensures ProtectFirst(mods, name, p) == if i < |mods| then mods[i := mods[i].(isProtected := p)] else mods
  {
    if i > 0 {
      ProtectFirstIs(mods[1..], i - 1, name, p);
    }
  }

  function Min(a: nat, b: nat): nat {
    if a <= b then a else b
  }

  /** What is fed to the digest, chunk by chunk: the file, up to the size it had at the start. */
  method FeedDigest(content: Bytes, fileSize: nat) returns (fed: Bytes)
    ensures fed == content[..Min(fileSize, |content|)]
  {
    fed := [];
    var read: nat := 0;
    while read < fileSize
      invariant read == |fed| <= Min(fileSize, |content|)
      invariant fed == content[..read]
      decreases fileSize - read
    {
      var size := Min(fileSize - read, CHUNK);
      var data := content[read..Min(read + size, |content|)];
      if data == [] {
        break;
      }
      fed := fed + data;
      read := read + |data|;
    }
  }

  class ResourceManager {
    var mods: seq<Mod>
    /** The contents of mods.json. */
    var db: Db

    constructor (db: Db)
      ensures mods == [] && this.db == db
    {
      mods := [];
      this.db := db;
    }

    method RefreshFiles(digest: Digest, files: Files, names: seq<string>, disk: Disk)
      requires Iterates(files, names) && NoMarks(db)
      modifies this
      ensures db == RefreshedDb(digest, files, disk, old(db))
      ensures mods == Listing(digest, files, disk, old(db), names)
    {
      mods := [];
      var work := db;
      for i := 0 to |names|
        invariant db == old(db)
        invariant mods == Listing(digest, files, disk, old(db), names[..i])
        invariant Marked(digest, files, disk, old(db), names[..i], work)
      {
        var name := names[i];
        ListingStep(digest, files, disk, old(db), names, i);
        MarkedStep(digest, files, disk, old(db), names, i, work);
        if IsMod(files, name) {
          var file := files[name];
          var listed, entry := Examine(digest, disk, name, file, work);
          if listed {
            mods := mods + [Mod(name, |file.content|, entry.hash, entry.isProtected)];
            work := work[name := entry];
          }
        }
      }
      assert names[..|names|] == names;
      ghost var marked := work;
      work := Sweep(work);
      SweptIsRefreshed(digest, files, disk, old(db), names, marked, work);
      db := work;
    }

    /** The entry of one mod, marked as existing: the one in the cache, or one made from what can be read. */
    method Examine(digest: Digest, disk: Disk, name: string, file: File, work: Db)
      returns (listed: bool, entry: DbEntry)
      requires file.Regular?
      ensures listed <==> Cached(work, name, file) || name !in disk.fails
      ensures listed && Cached(work, name, file) ==> entry == work[name].(exists_ := true)
      ensures listed && !Cached(work, name, file) ==>
        entry == Hashed(digest, file, Readable(disk, name, file.content)).(exists_ := true)
    {
      if Cached(work, name, file) {
        return true, work[name].(exists_ := true);
      }
      var readable := Readable(disk, name, file.content);
      var fed := FeedDigest(readable, |file.content|);
      assert fed == readable;
      listed, entry := name !in disk.fails, DbEntry(file.lastWrite, digest(fed), |file.content|, false, true);
    }

    /** Erases the entries without a mark, and the marks. */
    method Sweep(marked: Db) returns (work: Db)
      ensures forall name :: name in work <==> name in marked && marked[name].exists_
      ensures forall name | name in work :: work[name] == marked[name].(exists_ := false)
    {
      work := marked;
      var todo := work.Keys;
      while todo != {}
        invariant todo <= work.Keys <= marked.Keys
        invariant forall name | name in todo :: work[name] == marked[name]
        invariant forall name | name in marked && name !in todo :: name in work <==> marked[name].exists_
        invariant forall name | name in work && name !in todo :: work[name] == marked[name].(exists_ := false)
        decreases todo
      {
        var name :| name in todo;
        todo := todo - {name};
        if !work[name].exists_ {
          work := work - {name};
        } else {
          work := work[name := work[name].(exists_ := false)];
        }
      }
    }

    method SetProtected(name: string, p: bool)
      modifies this
      ensures mods == ProtectFirst(old(mods), name, p)
      ensures db == Protect(old(db), name, p)
    {
      var i := 0;
      while i < |mods| && mods[i].fileName != name
        invariant i <= |mods|
        invariant forall j | 0 <= j < i :: mods[j].fileName != name
      {
        i := i + 1;
      }
      ProtectFirstIs(mods, i, name, p);
      if i < |mods| {
        mods := mods[i := mods[i].(isProtected := p)];
      }
      if name in db {
        db := db[name := db[name].(isProtected := p)];
      }
    }
  }

  /** The database while the directory is being walked: the entries seen so far are marked as existing. */
  ghost predicate Marked(digest: Digest, files: Files, disk: Disk, db: Db, seen: seq<string>, work: Db) {
    forall name ::
      if name in seen && IsListed(files, disk, db, name)
      then name in work && work[name] == EntryOf(digest, files, disk, db, name).(exists_ := true)
      else (name in work <==> name in db) && (name in db ==> work[name] == db[name])
  }

  lemma MarkedStep(
    digest: Digest, files: Files, disk: Disk, db: Db, names: seq<string>, i: nat, work: Db)
    requires i < |names| && names[i] !in names[..i] && Marked(digest, files, disk, db, names[..i], work)
    ensures names[i] in work <==> names[i] in db
    ensures names[i] in db ==> work[names[i]] == db[names[i]]
    ensures
      if IsListed(files, disk, db, names[i])
      then Marked(digest, files, disk, db, names[..i + 1],
                  work[names[i] := EntryOf(digest, files, disk, db, names[i]).(exists_ := true)])
      else Marked(digest, files, disk, db, names[..i + 1], work)
  {
    assert names[..i + 1] == names[..i] + [names[i]];
  }

  lemma ListingStep(digest: Digest, files: Files, disk: Disk, db: Db, names: seq<string>, i: nat)
    requires i < |names|
    ensures Listing(digest, files, disk, db, names[..i + 1])
      == Listing(digest, files, disk, db, names[..i])
         + if IsListed(files, disk, db, names[i]) then [ModOf(digest, files, disk, db, names[i])] else []
  {
    assert names[..i + 1][..i] == names[..i];
  }

  lemma SweptIsRefreshed(
    digest: Digest, files: Files, disk: Disk, db: Db, names: seq<string>, marked: Db, work: Db)
    requires Iterates(files, names) && NoMarks(db) && Marked(digest, files, disk, db, names, marked)
    requires forall name :: name in work <==> name in marked && marked[name].exists_
    requires forall name | name in work :: work[name] == marked[name].(exists_ := false)
    ensures work == RefreshedDb(digest, files, disk, db)
  {
  }

  /*******************************************************************************
   *  The list after a refresh
   *******************************************************************************/

  lemma {:induction false} ListingHas(
    digest: Digest, files: Files, disk: Disk, db: Db, names: seq<string>, m: Mod)
    ensures m in Listing(digest, files, disk, db, names)
      <==> m.fileName in names && IsListed(files, disk, db, m.fileName)
           && m == ModOf(digest, files, disk, db, m.fileName)
    decreases |names|
  {
    if names != [] {
      var last := |names| - 1;
      ListingHas(digest, files, disk, db, names[..last], m);
      assert names == names[..last] + [names[last]];
    }
  }

  ghost predicate NamesDistinct(mods: seq<Mod>) {
    forall i, j | 0 <= i < j < |mods| :: mods[i].fileName != mods[j].fileName
  }

  lemma {:induction false} ListingDistinct(digest: Digest, files: Files, disk: Disk, db: Db, names: seq<string>)
    requires forall i, j | 0 <= i < j < |names| :: names[i] != names[j]
    ensures NamesDistinct(Listing(digest, files, disk, db, names))
    decreases |names|
  {
    if names != [] {
      var last := |names| - 1;
      var init := Listing(digest, files, disk, db, names[..last]);
      ListingDistinct(digest, files, disk, db, names[..last]);
      forall i | 0 <= i < |init| ensures init[i].fileName != names[last] {
        ListingHas(digest, files, disk, db, names[..last], init[i]);
      }
    }
  }

  /*******************************************************************************
   *  Whole runs
   *******************************************************************************/

  /** What was fed to the digest when a file was hashed, and the size and time the file had. */
  datatype HashedFile = HashedFile(fed: Bytes, size: nat, lastWrite: int)

  /** `hashed` remembers, for every entry of the database, what it was made of. */
  datatype State = State(files: Files, mods: seq<Mod>, db: Db, hashed: map<string, HashedFile>)

  datatype Step =
    | Write(name: string, content: Bytes, lastWrite: int)
    | MakeDirectory(name: string)
    | Delete(name: string)
    | Restart
    | Refresh(names: seq<string>, disk: Disk)
    | SetProtected(name: string, isProtected: bool)

  /** A file may be written with any time, an earlier one too. */
  ghost predicate Can(s: State, step: Step) {
    step.Refresh? ==> Iterates(s.files, step.names)
  }

  /** What the entries of the refreshed database are made of. */
  function RefreshedHashed(
    files: Files, disk: Disk, db: Db, hashed: map<string, HashedFile>): map<string, HashedFile>
  {
    map name | name in files && IsListed(files, disk, db, name) ::
      if Cached(db, name, files[name]) && name in hashed then hashed[name]
      else HashedFile(Readable(disk, name, files[name].content), |files[name].content|, files[name].lastWrite)
  }

  function Next(digest: Digest, s: State, step: Step): State {
    match step
    case Write(name, content, t) => s.(files := s.files[name := Regular(content, t)])
    case MakeDirectory(name) => s.(files := s.files[name := Directory])
    case Delete(name) => s.(files := s.files - {name})
    case Restart => s.(mods := [])
    case Refresh(names, disk) =>
      s.(mods := Listing(digest, s.files, disk, s.db, names),
         db := RefreshedDb(digest, s.files, disk, s.db),
         hashed := RefreshedHashed(s.files, disk, s.db, s.hashed))
    case SetProtected(name, p) => s.(mods := ProtectFirst(s.mods, name, p), db := Protect(s.db, name, p))
  }

  /** The entry is the one that hashing gave, protection aside. */
  predicate Describes(digest: Digest, entry: DbEntry, h: HashedFile) {
    entry.hash == digest(h.fed) && entry.fileSize == h.size && entry.lastWrite == h.lastWrite
  }

  ghost predicate Remembers(digest: Digest, db: Db, hashed: map<string, HashedFile>) {
    && db.Keys == hashed.Keys
    && forall name | name in db :: Describes(digest, db[name], hashed[name])
  }

  /** Every listed mod has its entry in the database, with the same hash and protection. */
  ghost predicate Agree(mods: seq<Mod>, db: Db) {
    forall i | 0 <= i < |mods| ::
      && mods[i].fileName in db
      && db[mods[i].fileName].hash == mods[i].hash
      && db[mods[i].fileName].isProtected == mods[i].isProtected
  }

  ghost predicate Inv(digest: Digest, s: State) {
    Remembers(digest, s.db, s.hashed) && NoMarks(s.db) && Agree(s.mods, s.db) && NamesDistinct(s.mods)
  }

  lemma ListingAgrees(digest: Digest, files: Files, disk: Disk, db: Db, names: seq<string>)
    ensures Agree(Listing(digest, files, disk, db, names), RefreshedDb(digest, files, disk, db))
  {
    var mods, refreshed := Listing(digest, files, disk, db, names), RefreshedDb(digest, files, disk, db);
    forall i | 0 <= i < |mods|
      ensures mods[i].fileName in refreshed
      ensures refreshed[mods[i].fileName].hash == mods[i].hash
      ensures refreshed[mods[i].fileName].isProtected == mods[i].isProtected
    {
      ListingHas(digest, files, disk, db, names, mods[i]);
    }
  }

  lemma RefreshPreserves(digest: Digest, s: State, names: seq<string>, disk: Disk)
    requires Inv(digest, s) && Iterates(s.files, names)
    ensures Inv(digest, Next(digest, s, Refresh(names, disk)))
  {
    ListingDistinct(digest, s.files, disk, s.db, names);
    ListingAgrees(digest, s.files, disk, s.db, names);
  }

  lemma {:induction false} ProtectFirstAt(mods: seq<Mod>, name: string, p: bool)
    requires NamesDistinct(mods)
    ensures |ProtectFirst(mods, name, p)| == |mods|
    ensures forall i | 0 <= i < |mods| ::
      ProtectFirst(mods, name, p)[i] == if mods[i].fileName == name then mods[i].(isProtected := p) else mods[i]
  {
    if mods != [] {
      ProtectFirstAt(mods[1..], name, p);
    }
  }

  lemma ProtectPreserves(digest: Digest, s: State, name: string, p: bool)
    requires Inv(digest, s)
    ensures Inv(digest, Next(digest, s, SetProtected(name, p)))
  {
    ProtectFirstAt(s.mods, name, p);
  }

  lemma StepPreserves(digest: Digest, s: State, step: Step)
    requires Inv(digest, s) && Can(s, step)
    ensures Inv(digest, Next(digest, s, step))
  {
    match step
    case Refresh(names, disk) =>
      RefreshPreserves(digest, s, names, disk);
    case SetProtected(name, p) =>
      ProtectPreserves(digest, s, name, p);
    case _ =>
  }

  ghost function Run(digest: Digest, s: State, steps: seq<Step>): (n: State)
    decreases |steps|
  {
    if steps == [] then s
    else if Can(s, steps[0]) then Run(digest, Next(digest, s, steps[0]), steps[1..])
    else Run(digest, s, steps[1..])
  }

  lemma {:induction false} RunInv(digest: Digest, s: State, steps: seq<Step>)
    requires Inv(digest, s)
    ensures Inv(digest, Run(digest, s, steps))
    decreases |steps|
  {
    if steps != [] {
      if Can(s, steps[0]) {
        StepPreserves(digest, s, steps[0]);
        RunInv(digest, Next(digest, s, steps[0]), steps[1..]);
      } else {
        RunInv(digest, s, steps[1..]);
      }
    }
  }

  const EMPTY := State(map[], [], map[], map[])

  /** What rehashing every file would list of one mod. */
  predicate IsCurrent(digest: Digest, files: Files, m: Mod) {
    && IsMod(files, m.fileName)
    && m.hash == digest(files[m.fileName].content)
    && m.fileSize == |files[m.fileName].content|
  }

  /** A regular file named something and then ".zip". */
  predicate IsZipFile(files: Files, name: string) {
    name in files && files[name].Regular? && |name| > 4 && name == name[..|name| - 4] + ".zip"
  }

  lemma ModsAreZipFiles(files: Files, name: string)
    ensures IsMod(files, name) <==> IsZipFile(files, name)
  {
    if |name| > 4 {
      assert name == name[..|name| - 4] + name[|name| - 4..];
    }
  }

  /** The list names exactly the mods, each once with its current hash; the database has the same names and flags. */
  ghost predicate Exact(digest: Digest, s: State) {
    && NamesDistinct(s.mods)
    && (forall i | 0 <= i < |s.mods| :: IsCurrent(digest, s.files, s.mods[i]))
    && (forall name | IsZipFile(s.files, name) :: exists i :: 0 <= i < |s.mods| && s.mods[i].fileName == name)
    && (forall name :: name in s.db <==> IsZipFile(s.files, name))
    && Agree(s.mods, s.db)
  }

  /** Neither the time nor the size shows that the file is not the one hashed. */
  predicate LooksUnchanged(h: HashedFile, file: File)
    requires file.Regular?
  {
    file.lastWrite <= h.lastWrite && |file.content| == h.size
  }

  /** Exactly when an entry gives a mod the right hash, over any database. */
  lemma HashIsCurrentIff(digest: Digest, files: Files, disk: Disk, db: Db, name: string, h: HashedFile)
    requires IsMod(files, name) && name in db && Describes(digest, db[name], h)
    ensures EntryOf(digest, files, disk, db, name).hash == digest(files[name].content) <==>
      digest(if LooksUnchanged(h, files[name]) then h.fed else Readable(disk, name, files[name].content))
      == digest(files[name].content)
  {
  }

  /**
   A refresh serves the mod rightly: it looks as it did when it was hashed, and what was read then has the hash of
   what it is now; or it is hashed without an exception, and what can be read has that hash.
   */
  predicate Served(digest: Digest, s: State, disk: Disk, name: string)
    requires IsMod(s.files, name)
  {
    var file := s.files[name];
    if name in s.hashed && LooksUnchanged(s.hashed[name], file) then digest(s.hashed[name].fed) == digest(file.content)
    else name !in disk.fails && digest(Readable(disk, name, file.content)) == digest(file.content)
  }

  ghost predicate AllServed(digest: Digest, s: State, disk: Disk) {
    forall name | IsMod(s.files, name) :: Served(digest, s, disk, name)
  }

  lemma ServedIff(digest: Digest, s: State, disk: Disk, name: string)
    requires Inv(digest, s) && IsMod(s.files, name)
    ensures Served(digest, s, disk, name) <==>
      && IsListed(s.files, disk, s.db, name)
      && EntryOf(digest, s.files, disk, s.db, name).hash == digest(s.files[name].content)
  {
    if name in s.db {
      HashIsCurrentIff(digest, s.files, disk, s.db, name, s.hashed[name]);
    }
  }

  lemma ListedMod(digest: Digest, s: State, disk: Disk, names: seq<string>, name: string) returns (i: nat)
    requires Iterates(s.files, names) && IsListed(s.files, disk, s.db, name)
    ensures
      var mods := Listing(digest, s.files, disk, s.db, names);
      i < |mods| && mods[i] == ModOf(digest, s.files, disk, s.db, name)
  {
    var mods, m := Listing(digest, s.files, disk, s.db, names), ModOf(digest, s.files, disk, s.db, name);
    ListingHas(digest, s.files, disk, s.db, names, m);
    i :| 0 <= i < |mods| && mods[i] == m;
  }

  lemma ServedIsExact(digest: Digest, s: State, names: seq<string>, disk: Disk)
    requires Inv(digest, s) && Iterates(s.files, names) && AllServed(digest, s, disk)
    ensures Exact(digest, Next(digest, s, Refresh(names, disk)))
  {
    RefreshPreserves(digest, s, names, disk);
    var n := Next(digest, s, Refresh(names, disk));
    forall i | 0 <= i < |n.mods| ensures IsCurrent(digest, n.files, n.mods[i]) {
      ListingHas(digest, s.files, disk, s.db, names, n.mods[i]);
      ServedIff(digest, s, disk, n.mods[i].fileName);
    }
    forall name ensures IsMod(s.files, name) <==> IsZipFile(s.files, name) {
      ModsAreZipFiles(s.files, name);
    }
    forall name | IsMod(s.files, name)
      ensures name in n.db && exists i :: 0 <= i < |n.mods| && n.mods[i].fileName == name
    {
      ServedIff(digest, s, disk, name);
      var i := ListedMod(digest, s, disk, names, name);
    }
  }

  lemma ExactIsServed(digest: Digest, s: State, names: seq<string>, disk: Disk)
    requires Inv(digest, s) && Iterates(s.files, names) && Exact(digest, Next(digest, s, Refresh(names, disk)))
    ensures AllServed(digest, s, disk)
  {
    var n := Next(digest, s, Refresh(names, disk));
    forall name | IsMod(s.files, name) ensures Served(digest, s, disk, name) {
      ModsAreZipFiles(s.files, name);
      assert name in n.db;
      var i := ListedMod(digest, s, disk, names, name);
      assert IsCurrent(digest, s.files, n.mods[i]);
      ServedIff(digest, s, disk, name);
    }
  }

  /**
   After any run whatever, and with whatever the disk lets through now, a refresh leaves the list exact just when it
   serves every mod rightly.
   */
  lemma RefreshIsExactIff(digest: Digest, steps: seq<Step>, names: seq<string>, disk: Disk)
    requires Iterates(Run(digest, EMPTY, steps).files, names)
    ensures
      var s := Run(digest, EMPTY, steps);
      Exact(digest, Next(digest, s, Refresh(names, disk))) <==> AllServed(digest, s, disk)
  {
    var s := Run(digest, EMPTY, steps);
    RunInv(digest, EMPTY, steps);
    if AllServed(digest, s, disk) {
      ServedIsExact(digest, s, names, disk);
    }
    if Exact(digest, Next(digest, s, Refresh(names, disk))) {
      ExactIsServed(digest, s, names, disk);
    }
  }

  /** A file read in part is listed with the wrong hash from then on, also when it can be read again. */
  lemma PartialReadSticks(digest: Digest, s: State, name: string, names: seq<string>, disk: Disk)
    requires Inv(digest, s) && IsMod(s.files, name) && name !in s.hashed && name !in disk.fails
    requires Iterates(s.files, names)
    requires digest(Readable(disk, name, s.files[name].content)) != digest(s.files[name].content)
    ensures
      var n := Next(digest, s, Refresh(names, disk));
      !Served(digest, n, SOUND, name) && !Exact(digest, Next(digest, n, Refresh(names, SOUND)))
  {
    var n := Next(digest, s, Refresh(names, disk));
    RefreshPreserves(digest, s, names, disk);
    if Exact(digest, Next(digest, n, Refresh(names, SOUND))) {
      ExactIsServed(digest, n, names, SOUND);
    }
  }

  /*******************************************************************************
   *  Runs in which time goes on
   *******************************************************************************/

  /**
   New content has a later time than any that a file of the name has had; `seen` holds the latest. Hashing may fail,
   but what is hashed is read to its end.
   */
  predicate Timely(seen: map<string, int>, steps: seq<Step>)
    decreases |steps|
  {
    steps == [] || (
      && (steps[0].Write? && steps[0].name in seen ==> steps[0].lastWrite > seen[steps[0].name])
      && (steps[0].Refresh? ==> steps[0].disk.short == map[])
      && Timely(Seen(seen, steps[0]), steps[1..]))
  }

  function Seen(seen: map<string, int>, step: Step): map<string, int> {
    if step.Write? then seen[step.name := step.lastWrite] else seen
  }

  /** What was hashed is no newer than what has been seen, and a file no newer than what was hashed is the same. */
  ghost predicate TimesSeen(s: State, seen: map<string, int>) {
    && (forall name | name in s.files && s.files[name].Regular? ::
          name in seen && s.files[name].lastWrite <= seen[name])
    && (forall name | name in s.hashed :: name in seen && s.hashed[name].lastWrite <= seen[name])
    && (forall name | name in s.files && name in s.hashed && s.files[name].Regular? ::
          s.files[name].lastWrite <= s.hashed[name].lastWrite ==> s.files[name].content == s.hashed[name].fed)
  }

  lemma TimesSeenStep(digest: Digest, s: State, seen: map<string, int>, step: Step)
    requires Inv(digest, s) && TimesSeen(s, seen) && Can(s, step)
    requires step.Write? && step.name in seen ==> step.lastWrite > seen[step.name]
    requires step.Refresh? ==> step.disk.short == map[]
    ensures TimesSeen(Next(digest, s, step), Seen(seen, step))
  {
  }

  lemma {:induction false} TimelyRun(digest: Digest, s: State, seen: map<string, int>, steps: seq<Step>)
    requires Inv(digest, s) && TimesSeen(s, seen) && Timely(seen, steps)
    ensures Inv(digest, Run(digest, s, steps)) && AllServed(digest, Run(digest, s, steps), SOUND)
    decreases |steps|
  {
    if steps != [] && Can(s, steps[0]) {
      StepPreserves(digest, s, steps[0]);
      TimesSeenStep(digest, s, seen, steps[0]);
      TimelyRun(digest, Next(digest, s, steps[0]), Seen(seen, steps[0]), steps[1..]);
    } else if steps != [] {
      TimelyRun(digest, s, seen, steps[1..]);
    }
  }

  /** After any run in which every new content has a later time and is read whole, the list is exact. */
  lemma RefreshIsExact(digest: Digest, steps: seq<Step>, names: seq<string>)
    requires Timely(map[], steps) && Iterates(Run(digest, EMPTY, steps).files, names)
    ensures Exact(digest, Next(digest, Run(digest, EMPTY, steps), Refresh(names, SOUND)))
  {
    TimelyRun(digest, EMPTY, map[], steps);
    ServedIsExact(digest, Run(digest, EMPTY, steps), names, SOUND);
  }

  /** Protecting a mod lasts over the refreshes that find its file unchanged, and ends with the next change. */
  lemma ProtectionLasts(digest: Digest, s: State, name: string, p: bool, names: seq<string>)
    requires Inv(digest, s) && IsMod(s.files, name) && name in s.db && Iterates(s.files, names)
    ensures
      var n := Next(digest, Next(digest, s, SetProtected(name, p)), Refresh(names, SOUND));
      n.db[name].isProtected == (Cached(s.db, name, s.files[name]) && p)
  {
  }
}
