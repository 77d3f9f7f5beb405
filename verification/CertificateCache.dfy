/**
 The DNS-01 certificate cache: the bundle decides whenever it exists, and a
 legacy pair is used only once it has become the bundle.
 */
module CertificateCache {
  import opened Base
  import opened Text
  import opened Integration
  import opened Certificate
  import opened Publication

  const BUNDLE: Text := "certificate.pem"
  const LEGACY_CERT: Text := "cert.pem"
  const LEGACY_KEY: Text := "key.pem"

  datatype Inspection = Absent | Bundle(generation: Generation) | Legacy(generation: Generation)

  datatype CacheError = Invalid(refusal: Refusal) | Unreadable | WriteFailed(stage: Option<Stage>)

  /** The answer an undisturbed inspection of this disk gives. */
  function Inspected(disk: Disk, parse: Parser, domains: seq<Text>, now: int): Result<Inspection, Refusal> {
    match disk.Read(BUNDLE)
    case Some(bundle) => Admitted(Validate(parse, bundle, domains, now), g => Bundle(g))
    case None =>
      match (disk.Read(LEGACY_CERT), disk.Read(LEGACY_KEY))
      case (None, None) => Ok(Absent)
      case (Some(cert), Some(key)) =>
        Admitted(Validate(parse, BundleOf(cert, key), domains, now), g => Legacy(g))
      case _ => Err(Unusable)
  }

  function Admitted(r: Result<Generation, Refusal>, wrap: Generation -> Inspection): Result<Inspection, Refusal> {
    match r
    case Ok(g) => Ok(wrap(g))
    case Err(refusal) => Err(refusal)
  }

  /** How a failed file operation is typed. */
  function IoFailure(operation: Operation, denied: bool): IntegrationError {
    if denied then Failed(operation, PermissionDenied, Never) else Failed(operation, Unavailable, Safe)
  }

  method ReadOptional(fs: FileSystem, name: Text) returns (r: Result<Option<Bytes>, CacheError>)
    modifies fs`troubles
    ensures r == if fs.troubles == old(fs.troubles) then Ok(fs.disk.Read(name)) else Err(Unreadable)
    ensures fs.troubles == old(fs.troubles) + if r.Ok? then [] else [Reading]
  {
    var ok, contents := fs.ReadFile(name);
    r := if ok then Ok(contents) else Err(Unreadable);
  }

  function Answered(found: Result<Inspection, Refusal>): Result<Inspection, CacheError> {
    match found case Ok(inspection) => Ok(inspection) case Err(refusal) => Err(Invalid(refusal))
  }

  /** Reads and validates with nothing written, preferring the bundle. */
  method Inspect(fs: FileSystem, parse: Parser, domains: seq<Text>, now: int)
    returns (r: Result<Inspection, CacheError>)
    modifies fs`troubles
    ensures r == if fs.troubles == old(fs.troubles) then Answered(Inspected(fs.disk, parse, domains, now)) else Err(Unreadable)
    ensures fs.troubles == old(fs.troubles) + if r == Err(Unreadable) then [Reading] else []
  {
    var bundle := ReadOptional(fs, BUNDLE);
    if bundle.Err? { return Err(bundle.error); }
    if bundle.value.Some? {
      match Validate(parse, bundle.value.value, domains, now) {
        case Ok(g) => return Ok(Bundle(g));
        case Err(refusal) => return Err(Invalid(refusal));
      }
    }
    var cert := ReadOptional(fs, LEGACY_CERT);
    if cert.Err? { return Err(cert.error); }
    var key := ReadOptional(fs, LEGACY_KEY);
    if key.Err? { return Err(key.error); }
    match (cert.value, key.value) {
      case (None, None) => return Ok(Absent);
      case (Some(c), Some(k)) =>
        match Validate(parse, BundleOf(c, k), domains, now) {
          case Ok(g) => return Ok(Legacy(g));
          case Err(refusal) => return Err(Invalid(refusal));
        }
      case _ => return Err(Invalid(Unusable));
    }
  }

  /** Creates the directory, then replaces one of its files. */
  method WriteCacheFile(fs: FileSystem, file: Text, contents: Bytes, fault: Option<Stage>,
                        random: nat -> Text, attempts: nat -> Text)
    returns (r: Result<(), CacheError>)
    requires fs.Valid()
    modifies fs
    ensures fs.Valid() && old(fs.history) <= fs.history
    ensures OthersKept(old(fs.disk), fs.disk, file) && AllKept(fs.history, |old(fs.history)|, old(fs.disk), file)
    ensures AllSound(fs.history, |old(fs.history)|, file, {old(fs.disk).Read(file), Some(contents)},
                     CrashFinds(old(fs.disk), file) + {Whole(Some(contents))})
    ensures Sound(fs.disk, file, {old(fs.disk).Read(file), Some(contents)},
                  CrashFinds(old(fs.disk), file) + {Whole(Some(contents))})
    ensures r.Ok? ==> Durable(fs.disk, file, contents)
    ensures r.Err? ==> r.error.WriteFailed?
    ensures r.Err? && r.error.stage != Some(DirectorySync) ==>
      Sound(fs.disk, file, {old(fs.disk).Read(file)}, CrashFinds(old(fs.disk), file))
    ensures r.Ok? <==>
      fs.troubles == old(fs.troubles) && fault.None? && !Crowded(old(fs.disk), file, random, attempts)
    ensures r.Err? ==>
      if r.error.stage.None? then fs.troubles == old(fs.troubles) + [MakingDirectory]
      else Blamed(old(fs.troubles), fs.troubles, fault, r.error.stage.value, Crowded(old(fs.disk), file, random, attempts))
    ensures old(fs.troubles) <= fs.troubles
  {
    hide OthersKept;
    KeepsItself(fs.disk, file);
    EveryDiskIsSound(fs.disk, file);
    var directory := fs.MakeDirectory();
    if !directory { return Err(WriteFailed(None)); }
    var written := WritePrivateFile(fs, file, contents, fault, random, attempts);
    match written {
      case Ok(_) => return Ok(());
      case Err(stage) => return Err(WriteFailed(Some(stage)));
    }
  }

  /** Publishes a generation as the bundle. */
  method PublishGeneration(fs: FileSystem, generation: Generation, fault: Option<Stage>,
                           random: nat -> Text, attempts: nat -> Text)
    returns (r: Result<(), CacheError>)
    requires fs.Valid()
    modifies fs
    ensures fs.Valid() && old(fs.history) <= fs.history
    ensures OthersKept(old(fs.disk), fs.disk, BUNDLE) && AllKept(fs.history, |old(fs.history)|, old(fs.disk), BUNDLE)
    ensures AllSound(fs.history, |old(fs.history)|, BUNDLE,
                     {old(fs.disk).Read(BUNDLE), Some(generation.bundle)},
                     CrashFinds(old(fs.disk), BUNDLE) + {Whole(Some(generation.bundle))})
    ensures Sound(fs.disk, BUNDLE, {old(fs.disk).Read(BUNDLE), Some(generation.bundle)},
                  CrashFinds(old(fs.disk), BUNDLE) + {Whole(Some(generation.bundle))})
    ensures r.Ok? ==> Durable(fs.disk, BUNDLE, generation.bundle)
    ensures r.Err? ==> r.error.WriteFailed?
    ensures r.Err? && r.error.stage != Some(DirectorySync) ==>
      Sound(fs.disk, BUNDLE, {old(fs.disk).Read(BUNDLE)}, CrashFinds(old(fs.disk), BUNDLE))
    ensures r.Ok? <==>
      fs.troubles == old(fs.troubles) && fault.None? && !Crowded(old(fs.disk), BUNDLE, random, attempts)
    ensures r.Err? ==>
      if r.error.stage.None? then fs.troubles == old(fs.troubles) + [MakingDirectory]
      else Blamed(old(fs.troubles), fs.troubles, fault, r.error.stage.value, Crowded(old(fs.disk), BUNDLE, random, attempts))
    ensures old(fs.troubles) <= fs.troubles
  {
    r := WriteCacheFile(fs, BUNDLE, generation.bundle, fault, random, attempts);
  }

  /** What a read that nothing interferes with answers. */
  function Due(found: Result<Inspection, Refusal>): Result<Option<Generation>, CacheError> {
    match found
    case Ok(Absent) => Ok(None)
    case Ok(Bundle(g)) => Ok(Some(g))
    case Ok(Legacy(g)) => Ok(Some(g))
    case Err(refusal) => Err(Invalid(refusal))
  }

  /**
   One read of the cache, from `was` to `now`. `refused` says the file system
   refused it something, `crowded` that no temporary name was free.
   */
  ghost predicate ReadFrom(parse: Parser, was: Disk, domains: seq<Text>, at: int, refused: bool, crowded: bool,
                           answer: Result<Option<Generation>, CacheError>, now: Disk)
  {
    var found := Inspected(was, parse, domains, at);
    && now.Wf() && OthersKept(was, now, BUNDLE)
    && (now == was || Migrating(parse, was, domains, at, now))
    && (answer == Due(found) || answer == Err(Unreadable) || (answer.Err? && answer.error.WriteFailed?))
    && (answer == Err(Unreadable) ==> refused && now == was)
    && (answer.Err? && answer.error.WriteFailed? ==>
          (refused || crowded) && found.Ok? && found.value.Legacy?)
    && (answer.Ok? && answer.value.Some? ==>
          && Inspected(now, parse, domains, at) == Ok(Bundle(answer.value.value))
          && (if was.Read(BUNDLE).Some? then now == was else Durable(now, BUNDLE, answer.value.value.bundle)))
    && (!(answer.Ok? && answer.value.Some?) && !(answer.Err? && answer.error.WriteFailed?) ==> now == was)
  }

  /** The disk changed only from a valid legacy pair towards that pair's bundle. */
  ghost predicate Migrating(parse: Parser, was: Disk, domains: seq<Text>, at: int, now: Disk) {
    && was.Read(BUNDLE).None?
    && Inspected(was, parse, domains, at).Ok? && Inspected(was, parse, domains, at).value.Legacy?
    && var bundle := Inspected(was, parse, domains, at).value.generation.bundle;
       Sound(now, BUNDLE, {None, Some(bundle)}, CrashFinds(was, BUNDLE) + {Whole(Some(bundle))})
  }

  /** The cached generation; a legacy pair is migrated before it is returned. */
  method ReadGeneration(fs: FileSystem, parse: Parser, domains: seq<Text>, now: int,
                        random: nat -> Text, attempts: nat -> Text)
    returns (r: Result<Option<Generation>, CacheError>)
    requires fs.Valid()
    modifies fs
    ensures fs.Valid() && old(fs.troubles) <= fs.troubles
    ensures ReadFrom(parse, old(fs.disk), domains, now, fs.troubles != old(fs.troubles),
                     Crowded(old(fs.disk), BUNDLE, random, attempts), r, fs.disk)
  {
    hide Sound, OthersKept, Crowded, Blamed;
    KeepsItself(fs.disk, BUNDLE);
    var found := Inspect(fs, parse, domains, now);
    match found {
      case Err(error) => return Err(error);
      case Ok(Absent) => return Ok(None);
      case Ok(Bundle(generation)) => return Ok(Some(generation));
      case Ok(Legacy(generation)) =>
        var published := PublishGeneration(fs, generation, None, random, attempts);
        match published {
          case Err(error) => return Err(error);
          case Ok(_) =>
            assert fs.disk.Read(BUNDLE) == Some(generation.bundle) by { DurableReads(fs.disk, generation.bundle); }
            return Ok(Some(generation));
        }
    }
  }

  lemma DurableReads(disk: Disk, bundle: Bytes)
    requires Durable(disk, BUNDLE, bundle)
    ensures disk.Read(BUNDLE) == Some(bundle)
  {
  }

  /** Once a bundle exists it alone decides: no legacy file changes the answer. */
  lemma BundleDecides(disk: Disk, other: Disk, parse: Parser, domains: seq<Text>, now: int)
    requires disk.Read(BUNDLE).Some? && other.Read(BUNDLE) == disk.Read(BUNDLE)
    ensures Inspected(other, parse, domains, now) == Inspected(disk, parse, domains, now)
    ensures Inspected(disk, parse, domains, now).Ok? ==>
      Inspected(disk, parse, domains, now).value.Bundle?
    ensures Validate(parse, disk.Read(BUNDLE).value, domains, now).Err? ==>
      Inspected(disk, parse, domains, now) ==
      Err(Validate(parse, disk.Read(BUNDLE).value, domains, now).error)
  {
  }

  // ---------- ever after ----------

  /**
   What may happen once a bundle is published: power is lost, someone reads, or
   another file of the directory is written, to its end or cut short.
   */
  datatype Event =
    | Crash(image: map<Text, Ino>, torn: Ino -> Bytes)
    | Ask(domains: seq<Text>, at: int, refused: bool, crowded: bool, answer: Result<Option<Generation>, CacheError>)
    | Elsewhere(file: Text)

  ghost predicate Step(parse: Parser, was: Disk, event: Event, now: Disk) {
    match event
    case Crash(image, torn) => image in was.images && now == Disk(image, Restarted(was.inodes, torn), {image})
    case Ask(domains, at, refused, crowded, answer) => ReadFrom(parse, was, domains, at, refused, crowded, answer, now)
    case Elsewhere(file) => file != BUNDLE && now.Wf() && OthersKept(was, now, file)
  }

  ghost predicate Run(parse: Parser, was: Disk, events: seq<Event>, disks: seq<Disk>) {
    && |disks| == |events| + 1 && disks[0] == was
    && forall k :: 0 <= k < |events| ==> Step(parse, disks[k], events[k], disks[k + 1])
  }

  /** The published generation where it serves, a refusal where it does not; an error only to a refused read. */
  ghost predicate Serves(g: Generation, event: Event) {
    event.Ask? ==>
      || (event.refused && event.answer == Err(Unreadable))
      || (if g.leaf.notBefore <= event.at <= g.leaf.notAfter && Covered(g.leaf.dnsNames, event.domains)
          then event.answer == Ok(Some(g)) else event.answer.Err? && event.answer.error.Invalid?)
  }

  lemma CrashKeeps(disk: Disk, bundle: Bytes, image: map<Text, Ino>, torn: Ino -> Bytes)
    requires disk.Wf() && Durable(disk, BUNDLE, bundle) && image in disk.images
    ensures
      var now := Disk(image, Restarted(disk.inodes, torn), {image});
      now.Wf() && Durable(now, BUNDLE, bundle)
  {
    RestartFinds(disk, image, torn, BUNDLE);
    EveryDiskIsSound(Disk(image, Restarted(disk.inodes, torn), {image}), BUNDLE);
  }

  lemma StepServes(parse: Parser, g: Generation, was: Disk, event: Event, now: Disk)
    requires parse(g.bundle) == Some(g.leaf)
    requires was.Wf() && Durable(was, BUNDLE, g.bundle) && Step(parse, was, event, now)
    ensures now.Wf() && Durable(now, BUNDLE, g.bundle) && Serves(g, event)
  {
    match event
    case Crash(image, torn) => CrashKeeps(was, g.bundle, image, torn);
    case Ask(_, _, _, _, _) => DurableReads(was, g.bundle);
    case Elsewhere(file) => ElsewhereKeeps(was, now, file, g.bundle);
  }

  /** No file's temporary name can be the bundle's. */
  lemma BundleIsNotTemporary(file: Text)
    ensures !Temporary(file, BUNDLE)
  {
    assert ("." + file + ".")[0] == '.' && BUNDLE[0] == 'c';
  }

  lemma ElsewhereKeeps(was: Disk, now: Disk, file: Text, bundle: Bytes)
    requires file != BUNDLE && OthersKept(was, now, file) && Durable(was, BUNDLE, bundle)
    ensures Durable(now, BUNDLE, bundle)
  {
    BundleIsNotTemporary(file);
    hide Temporary;
    assert Unseen(was, now, BUNDLE);
    EveryDiskIsSound(now, BUNDLE);
    assert CrashFinds(was, BUNDLE) <= {Whole(Some(bundle))};
  }

  /**
   A durably published generation is what every later read answers, across any
   sequence of reads, crashes and writes of other files: exactly while its window
   holds and its names cover what is asked, unless that read was refused.
   */
  lemma {:induction false} ReadEverAfter(parse: Parser, g: Generation, was: Disk, events: seq<Event>, disks: seq<Disk>, k: nat)
    requires parse(g.bundle) == Some(g.leaf)
    requires was.Wf() && Durable(was, BUNDLE, g.bundle) && Run(parse, was, events, disks) && k <= |events|
    ensures disks[k].Wf() && Durable(disks[k], BUNDLE, g.bundle)
    ensures forall j :: 0 <= j < k ==> Serves(g, events[j])
  {
    hide Step, Durable, Serves;
    if k > 0 {
      ReadEverAfter(parse, g, was, events, disks, k - 1);
      StepServes(parse, g, disks[k - 1], events[k - 1], disks[k]);
    }
  }

  /** A legacy pair, once returned, is served as the bundle ever after. */
  lemma MigratedEverAfter(parse: Parser, g: Generation, was: Disk, domains: seq<Text>, at: int,
                          refused: bool, crowded: bool, now: Disk, events: seq<Event>, disks: seq<Disk>)
    requires was.Read(BUNDLE).None? && ReadFrom(parse, was, domains, at, refused, crowded, Ok(Some(g)), now)
    requires Run(parse, now, events, disks)
    ensures forall j :: 0 <= j < |events| ==> Serves(g, events[j])
  {
    hide Serves, Durable, Sound;
    ReadEverAfter(parse, g, now, events, disks, |events|);
  }

  // ---------- renewal ----------

  /** An absent or unusable certificate is renewed, a usable one when it is due. */
  predicate RenewalNeeded(cached: Result<Option<Generation>, CacheError>, now: int) {
    match cached
    case Ok(Some(generation)) => generation.RenewalDue(now)
    case _ => true
  }

  /**
   After a durable publication, across any such sequence, a renewal pass that
   can read the cache leaves it alone exactly while the certificate serves what is
   asked and more than the renewal window of its life is left.
   */
  lemma RenewsExactly(parse: Parser, g: Generation, was: Disk, events: seq<Event>, disks: seq<Disk>, k: nat)
    requires parse(g.bundle) == Some(g.leaf)
    requires was.Wf() && Durable(was, BUNDLE, g.bundle) && Run(parse, was, events, disks)
    requires k < |events| && events[k].Ask? && (events[k].refused ==> events[k].answer != Err(Unreadable))
    requires I64_MIN <= g.leaf.notAfter <= I64_MAX && I64_MIN <= events[k].at <= I64_MAX
    ensures !RenewalNeeded(events[k].answer, events[k].at) <==>
      && g.leaf.notBefore <= events[k].at <= g.leaf.notAfter - RENEWAL_WINDOW_SECS
      && Covered(g.leaf.dnsNames, events[k].domains)
  {
    hide Run, Durable;
    ReadEverAfter(parse, g, was, events, disks, k + 1);
    assert Serves(g, events[k]);
    RenewalDueIsExact(g, events[k].at);
  }
}
