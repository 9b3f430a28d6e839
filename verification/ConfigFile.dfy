/** Configuration validation (serverwall-core/src/config/loader.rs). */
module ConfigCheck {
  datatype Protocol = Https | Smtps | SmtpStarttls | Imaps | Tcp | Stratum

  datatype Frontend = Frontend(
    name: string, protocol: Protocol, listen: seq<string>, pool: string, waf: bool, hasCert: bool, hasPfx: bool)

  datatype Pool = Pool(name: string, backends: seq<string>)

  datatype Scanner = Scanner(name: string, command: string)

  datatype Config = Config(frontends: seq<Frontend>, pools: seq<Pool>, scanners: seq<Scanner>, trusted: seq<string>)

  datatype Error =
    | UnknownPool(frontend: Frontend)
    | NoCertificate(frontend: Frontend)
    | NoListener(frontend: Frontend)
    | WafNotHttps(frontend: Frontend)
    | EmptyPool(pool: Pool)
    | DuplicateFrontend(name: string)
    | DuplicatePool(name: string)
    | NoPlaceholder(scanner: Scanner)
    | BadNetwork(host: string)

  datatype Result = Ok | Err(error: Error)

  predicate RequiresTls(f: Frontend) {
    f.protocol == Https || f.protocol == Smtps || f.protocol == SmtpStarttls || f.protocol == Imaps
  }

  predicate HasTls(f: Frontend) { f.hasCert || f.hasPfx }

  predicate Contains(s: string, p: string) { |s| >= |p| && (s[..|p|] == p || (s != "" && Contains(s[1..], p))) }

  const PLACEHOLDER := "{file}"

  // ---- What a well-formed configuration is ----

  predicate HasPool(c: Config, name: string) { exists i | 0 <= i < |c.pools| :: c.pools[i].name == name }

  predicate FrontendOk(c: Config, f: Frontend) {
    HasPool(c, f.pool) && (RequiresTls(f) ==> HasTls(f)) && f.listen != [] && (f.waf ==> f.protocol == Https)
  }

  /** `isNetwork` decides which strings are an IP address or a CIDR block. */
  predicate WellFormed(c: Config, isNetwork: string -> bool) {
    && (forall i :: 0 <= i < |c.frontends| ==> FrontendOk(c, c.frontends[i]))
    && (forall i :: 0 <= i < |c.pools| ==> c.pools[i].backends != [])
    && (forall i, j :: 0 <= i < j < |c.frontends| ==> c.frontends[i].name != c.frontends[j].name)
    && (forall i, j :: 0 <= i < j < |c.pools| ==> c.pools[i].name != c.pools[j].name)
    && (forall i :: 0 <= i < |c.scanners| ==> Contains(c.scanners[i].command, PLACEHOLDER))
    && (forall i :: 0 <= i < |c.trusted| ==> isNetwork(c.trusted[i]))
  }

  /** The complaint is true of the configuration. */
  predicate Justified(c: Config, isNetwork: string -> bool, e: Error) {
    match e
    case UnknownPool(f) => f in c.frontends && !HasPool(c, f.pool)
    case NoCertificate(f) => f in c.frontends && RequiresTls(f) && !HasTls(f)
    case NoListener(f) => f in c.frontends && f.listen == []
    case WafNotHttps(f) => f in c.frontends && f.waf && f.protocol != Https
    case EmptyPool(p) => p in c.pools && p.backends == []
    case DuplicateFrontend(n) =>
      exists i, j | 0 <= i < j < |c.frontends| :: c.frontends[i].name == n == c.frontends[j].name
    case DuplicatePool(n) => exists i, j | 0 <= i < j < |c.pools| :: c.pools[i].name == n == c.pools[j].name
    case NoPlaceholder(s) => s in c.scanners && !Contains(s.command, PLACEHOLDER)
    case BadNetwork(h) => h in c.trusted && !isNetwork(h)
  }

  method CheckFrontends(c: Config, isNetwork: string -> bool) returns (r: Result)
    ensures r.Ok? <==> forall i :: 0 <= i < |c.frontends| ==> FrontendOk(c, c.frontends[i])
    ensures r.Err? ==> Justified(c, isNetwork, r.error)
  {
    for k := 0 to |c.frontends|
      invariant forall i :: 0 <= i < k ==> FrontendOk(c, c.frontends[i])
    {
      var f := c.frontends[k];
      if !HasPool(c, f.pool) {
        return Err(UnknownPool(f));
      }
      if RequiresTls(f) && !HasTls(f) {
        return Err(NoCertificate(f));
      }
      if f.listen == [] {
        return Err(NoListener(f));
      }
      if f.waf && f.protocol != Https {
        return Err(WafNotHttps(f));
      }
    }
    r := Ok;
  }

  /** Finds a name that occurs twice by growing a set, as the two duplicate checks do. */
  method FindDuplicate(names: seq<string>) returns (found: bool, name: string)
    ensures found ==> exists i, j :: 0 <= i < j < |names| && names[i] == name == names[j]
    ensures !found ==> forall i, j :: 0 <= i < j < |names| ==> names[i] != names[j]
  {
    var seen: set<string> := {};
    for k := 0 to |names|
      invariant forall n :: n in seen <==> exists i :: 0 <= i < k && names[i] == n
      invariant forall i, j :: 0 <= i < j < k ==> names[i] != names[j]
    {
      if names[k] in seen {
        return true, names[k];
      }
      seen := seen + {names[k]};
    }
    return false, "";
  }

  method CheckRest(c: Config, isNetwork: string -> bool) returns (r: Result)
    ensures r.Ok? <==>
      && (forall i :: 0 <= i < |c.scanners| ==> Contains(c.scanners[i].command, PLACEHOLDER))
      && (forall i :: 0 <= i < |c.trusted| ==> isNetwork(c.trusted[i]))
    ensures r.Err? ==> Justified(c, isNetwork, r.error)
  {
    hide Contains;
    for k := 0 to |c.scanners|
      invariant forall i :: 0 <= i < k ==> Contains(c.scanners[i].command, PLACEHOLDER)
    {
      if !Contains(c.scanners[k].command, PLACEHOLDER) {
        return Err(NoPlaceholder(c.scanners[k]));
      }
    }
    for k := 0 to |c.trusted|
      invariant forall i :: 0 <= i < k ==> isNetwork(c.trusted[i])
    {
      if !isNetwork(c.trusted[k]) {
        return Err(BadNetwork(c.trusted[k]));
      }
    }
    r := Ok;
  }

  method CheckPools(c: Config, isNetwork: string -> bool) returns (r: Result)
    ensures r.Ok? <==> forall i :: 0 <= i < |c.pools| ==> c.pools[i].backends != []
    ensures r.Err? ==> Justified(c, isNetwork, r.error)
  {
    for k := 0 to |c.pools|
      invariant forall i :: 0 <= i < k ==> c.pools[i].backends != []
    {
      if c.pools[k].backends == [] {
        return Err(EmptyPool(c.pools[k]));
      }
    }
    r := Ok;
  }

  method CheckFrontendNames(c: Config, isNetwork: string -> bool) returns (r: Result)
    ensures r.Ok? <==> forall i, j :: 0 <= i < j < |c.frontends| ==> c.frontends[i].name != c.frontends[j].name
    ensures r.Err? ==> Justified(c, isNetwork, r.error)
  {
    var names := seq(|c.frontends|, i requires 0 <= i < |c.frontends| => c.frontends[i].name);
    var found, name := FindDuplicate(names);
    assert forall i :: 0 <= i < |names| ==> names[i] == c.frontends[i].name;
    r := if found then Err(DuplicateFrontend(name)) else Ok;
  }

  method CheckPoolNames(c: Config, isNetwork: string -> bool) returns (r: Result)
    ensures r.Ok? <==> forall i, j :: 0 <= i < j < |c.pools| ==> c.pools[i].name != c.pools[j].name
    ensures r.Err? ==> Justified(c, isNetwork, r.error)
  {
    var names := seq(|c.pools|, i requires 0 <= i < |c.pools| => c.pools[i].name);
    var found, name := FindDuplicate(names);
    assert forall i :: 0 <= i < |names| ==> names[i] == c.pools[i].name;
    r := if found then Err(DuplicatePool(name)) else Ok;
  }

  /** Validation accepts exactly the well-formed configurations and complains only with reason. */
  method Validate(c: Config, isNetwork: string -> bool) returns (r: Result)
    ensures r.Ok? <==> WellFormed(c, isNetwork)
    ensures r.Err? ==> Justified(c, isNetwork, r.error)
  {
    hide Contains, FrontendOk, Justified;
    r := CheckFrontends(c, isNetwork);
    if r.Err? {
      return;
    }
    r := CheckPools(c, isNetwork);
    if r.Err? {
      return;
    }
    r := CheckFrontendNames(c, isNetwork);
    if r.Err? {
      return;
    }
    r := CheckPoolNames(c, isNetwork);
    if r.Err? {
      return;
    }
    r := CheckRest(c, isNetwork);
  }
}

/** Writing the configuration (serverwall-core/src/config/writer.rs and the load-edit-validate-write
    functions of serverwall-core/src/config/editor.rs): any number of writers in any number of
    processes, interleaved at every file operation, with crashes anywhere. The route of the web interface that stores
    its certificate (serverwall-webui/src/routes/system.rs) writes the same file in place, with no lock, no temporary
    file and no validation. */
module ConfigWriter {
  import opened ConfigCheck
  import opened Options

  type Writer = nat
  type Pid = nat

  /** What code outside the protocol contributes: TOML text of a configuration and back, the address
      parser, and the process a writer runs in (writers of one process share a temporary path). */
  datatype World = World(
    render: Config -> string, parse: string -> Option<Config>, isNetwork: string -> bool, pid: Writer -> Pid)

  /** Where a writer is. The lock is held from Locked to Dropping. One that overwrites in place has opened the file that
      was number `inode` and has written a part of its text. */
  datatype Place =
    | Idle
    | Loaded(c: Config)
    | Edited(c: Config)
    | Waiting(c: Config, tries: nat)
    | Locked(c: Config)
    | Writing(c: Config, written: nat)
    | Synced(c: Config)
    | Dropping
    | Overwriting(c: Config, written: nat, inode: nat)
    | Crashed

  /** The lock file, the temporary files, the configuration file, how often that was replaced, and where each writer
      is. */
  datatype Disk = Disk(locked: bool, tmp: map<Pid, string>, file: string, inode: nat, at: map<Writer, Place>)

  datatype Step =
    | Load(w: Writer)
    | Edit(w: Writer, c: Config)
    | Check(w: Writer)
    | TryLock(w: Writer)
    | CreateTmp(w: Writer)
    | Write(w: Writer, upTo: nat)
    | Sync(w: Writer)
    | Rename(w: Writer)
    | IoError(w: Writer)
    | Unlock(w: Writer)
    | Truncate(w: Writer, c: Config)
    | Append(w: Writer, upTo: nat)
    | Close(w: Writer)
    | Crash(w: Writer)

  predicate Enabled(world: World, d: Disk, s: Step) {
    s.w in d.at &&
    match s
    case Load(w) => d.at[w].Idle?
    case Edit(w, _) => d.at[w].Loaded?
    case Check(w) => d.at[w].Edited?
    case TryLock(w) => d.at[w].Waiting?
    case CreateTmp(w) => d.at[w].Locked?
    case Write(w, upTo) => d.at[w].Writing? && d.at[w].written <= upTo <= |world.render(d.at[w].c)|
    case Sync(w) => d.at[w].Writing? && d.at[w].written == |world.render(d.at[w].c)|
    case Rename(w) => d.at[w].Synced? && world.pid(w) in d.tmp
    case IoError(w) => d.at[w].Waiting? || d.at[w].Locked? || d.at[w].Writing? || d.at[w].Synced?
    case Unlock(w) => d.at[w].Dropping?
    case Truncate(w, _) => d.at[w].Idle?
    case Append(w, upTo) => d.at[w].Overwriting? && d.at[w].written <= upTo <= |world.render(d.at[w].c)|
    case Close(w) => d.at[w].Overwriting?
    case Crash(w) => true
  }

  /** The text with `part` written over it from `offset` on; a gap before that reads as zeros. */
  function WriteAt(text: string, offset: nat, part: string): string {
    var before := if offset <= |text| then text[..offset] else text + seq(offset - |text|, _ => '\0');
    before + part + if offset + |part| <= |text| then text[offset + |part|..] else ""
  }

  function Goes(d: Disk, w: Writer, p: Place): Disk { d.(at := d.at[w := p]) }

  function Apply(world: World, d: Disk, s: Step): Disk
    requires Enabled(world, d, s)
  {
    match s
    case Load(w) =>
      var c := world.parse(d.file);
      if c.Some? && WellFormed(c.value, world.isNetwork) then Goes(d, w, Loaded(c.value)) else d
    case Edit(w, c) => Goes(d, w, Edited(c))
    case Check(w) =>
      var c := d.at[w].c;
      Goes(d, w, if WellFormed(c, world.isNetwork) then Waiting(c, 0) else Idle)
    case TryLock(w) =>
      var c, tries := d.at[w].c, d.at[w].tries;
      if !d.locked then Goes(d.(locked := true), w, Locked(c))
      else Goes(d, w, if tries + 1 < 5 then Waiting(c, tries + 1) else Idle)
    case CreateTmp(w) => Goes(d.(tmp := d.tmp[world.pid(w) := ""]), w, Writing(d.at[w].c, 0))
    case Write(w, upTo) =>
      var c := d.at[w].c;
      Goes(d.(tmp := d.tmp[world.pid(w) := world.render(c)[..upTo]]), w, Writing(c, upTo))
    case Sync(w) => Goes(d, w, Synced(d.at[w].c))
    case Rename(w) =>
      var p := world.pid(w);
      Goes(d.(file := d.tmp[p], inode := d.inode + 1, tmp := d.tmp - {p}), w, Dropping)
    case IoError(w) =>
      if d.at[w].Waiting? then Goes(d, w, Idle)
      else Goes(if d.at[w].Synced? then d.(tmp := d.tmp - {world.pid(w)}) else d, w, Dropping)
    case Unlock(w) => Goes(d.(locked := false), w, Idle)
    case Truncate(w, c) => Goes(d.(file := ""), w, Overwriting(c, 0, d.inode))
    case Append(w, upTo) =>
      var p := d.at[w];
      var text := WriteAt(d.file, p.written, world.render(p.c)[p.written..upTo]);
      Goes(if p.inode == d.inode then d.(file := text) else d, w, p.(written := upTo))
    case Close(w) => Goes(d, w, Idle)
    case Crash(w) => Goes(d, w, Crashed)
  }

  predicate Holds(p: Place) { p.Locked? || p.Writing? || p.Synced? || p.Dropping? }

  /** At most one writer is inside, and the lock file is there while one is. */
  predicate OneHolder(d: Disk) {
    && (forall w, v :: w in d.at && v in d.at && Holds(d.at[w]) && Holds(d.at[v]) ==> w == v)
    && (forall w :: w in d.at && Holds(d.at[w]) ==> d.locked)
  }

  /** The text is one whole, valid configuration. */
  ghost predicate Whole(world: World, text: string) {
    exists c :: WellFormed(c, world.isNetwork) && text == world.render(c)
  }

  /** What a writer past validation has in hand, and what its temporary file holds. */
  predicate Prepared(world: World, d: Disk, w: Writer)
    requires w in d.at
  {
    var p, t := d.at[w], world.pid(w);
    && (p.Waiting? || p.Locked? || p.Writing? || p.Synced? ==> WellFormed(p.c, world.isNetwork))
    && (p.Writing? ==> p.written <= |world.render(p.c)| && t in d.tmp && d.tmp[t] == world.render(p.c)[..p.written])
    && (p.Synced? ==> t in d.tmp && d.tmp[t] == world.render(p.c))
  }

  predicate NobodyOverwrites(d: Disk) { forall w :: w in d.at ==> !d.at[w].Overwriting? }

  ghost predicate Safe(world: World, d: Disk) {
    && OneHolder(d)
    && NobodyOverwrites(d)
    && Whole(world, d.file)
    && forall w :: w in d.at ==> Prepared(world, d, w)
  }

  /** Steps outside the lock touch neither the files nor the other writers. */
  lemma OneHolderKept(world: World, d: Disk, s: Step)
    requires OneHolder(d) && Enabled(world, d, s)
    ensures OneHolder(Apply(world, d, s))
  {
    hide WellFormed, OneHolder;
    var d' := Apply(world, d, s);
    if s.TryLock? && !d.locked {
      Enters(d, d', s.w);
    } else {
      Stays(d, d', s.w);
    }
  }

  /** A writer that gets in where nobody was. */
  lemma Enters(d: Disk, d': Disk, w: Writer)
    requires OneHolder(d) && !d.locked && d'.locked && w in d.at && w in d'.at && d'.at == d.at[w := d'.at[w]]
    ensures OneHolder(d')
  {
  }

  /** A writer that goes on, or leaves. */
  lemma Stays(d: Disk, d': Disk, w: Writer)
    requires OneHolder(d) && w in d.at && w in d'.at && d'.at == d.at[w := d'.at[w]]
    requires Holds(d'.at[w]) ==> Holds(d.at[w])
    requires d'.locked == d.locked || (Holds(d.at[w]) && !Holds(d'.at[w]))
    ensures OneHolder(d')
  {
  }

  lemma OthersPrepared(world: World, d: Disk, s: Step, v: Writer)
    requires OneHolder(d) && Enabled(world, d, s) && v in d.at && v != s.w && Prepared(world, d, v)
    ensures Prepared(world, Apply(world, d, s), v)
  {
    hide WellFormed;
  }

  lemma SelfPrepared(world: World, d: Disk, s: Step)
    requires Enabled(world, d, s) && Prepared(world, d, s.w)
    ensures Prepared(world, Apply(world, d, s), s.w)
  {
    hide WellFormed;
    if s.Sync? {
      var text := world.render(d.at[s.w].c);
      assert text[..|text|] == text;
    }
  }

  lemma FileWhole(world: World, d: Disk, s: Step)
    requires Enabled(world, d, s) && Prepared(world, d, s.w) && Whole(world, d.file)
    requires !s.Truncate? && !s.Append?
    ensures Whole(world, Apply(world, d, s).file)
  {
    hide WellFormed;
  }

  lemma ApplySafe(world: World, d: Disk, s: Step)
    requires Safe(world, d) && Enabled(world, d, s) && !s.Truncate?
    ensures Safe(world, Apply(world, d, s))
  {
    hide OneHolder, Whole, Prepared, WellFormed;
    var d' := Apply(world, d, s);
    OneHolderKept(world, d, s);
    FileWhole(world, d, s);
    assert d'.at.Keys == d.at.Keys by { SameWriters(world, d, s); }
    hide Apply;
    forall w | w in d'.at ensures Prepared(world, d', w) {
      if w == s.w {
        SelfPrepared(world, d, s);
      } else {
        OthersPrepared(world, d, s, w);
      }
    }
  }

  lemma SameWriters(world: World, d: Disk, s: Step)
    requires Enabled(world, d, s)
    ensures Apply(world, d, s).at.Keys == d.at.Keys
  {
    hide WellFormed;
  }

  predicate Possible(world: World, d: Disk, steps: seq<Step>)
    decreases |steps|
  {
    steps == [] || (Enabled(world, d, steps[0]) && Possible(world, Apply(world, d, steps[0]), steps[1..]))
  }

  function After(world: World, d: Disk, steps: seq<Step>): Disk
    requires Possible(world, d, steps)
    decreases |steps|
  {
    if steps == [] then d else After(world, Apply(world, d, steps[0]), steps[1..])
  }

  /** Nobody is under way and the file is one whole, valid configuration. */
  ghost predicate Start(world: World, d: Disk) {
    (forall w :: w in d.at ==> d.at[w].Idle?) && Whole(world, d.file)
  }

  /** No writer opens the file to write it in place. */
  predicate NoOverwrite(steps: seq<Step>) { forall i :: 0 <= i < |steps| ==> !steps[i].Truncate? }

  lemma {:induction false} RunOneHolder(world: World, d: Disk, steps: seq<Step>)
    requires OneHolder(d) && Possible(world, d, steps)
    ensures OneHolder(After(world, d, steps))
    decreases |steps|
  {
    hide Apply, OneHolder, Enabled;
    if steps != [] {
      OneHolderKept(world, d, steps[0]);
      RunOneHolder(world, Apply(world, d, steps[0]), steps[1..]);
    }
  }

  lemma {:induction false} RunSafe(world: World, d: Disk, steps: seq<Step>)
    requires Safe(world, d) && Possible(world, d, steps) && NoOverwrite(steps)
    ensures Safe(world, After(world, d, steps))
    decreases |steps|
  {
    hide Apply, Safe, Enabled;
    if steps != [] {
      ApplySafe(world, d, steps[0]);
      RunSafe(world, Apply(world, d, steps[0]), steps[1..]);
    }
  }

  /** In every reachable state of every interleaving, with crashes at any point, at most one writer is inside the lock;
      and if nobody wrote in place, the configuration file is one whole, valid configuration, so a reader whose parser
      undoes the printer always loads it. */
  lemma WriterSafety(world: World, d: Disk, steps: seq<Step>)
    requires Start(world, d) && Possible(world, d, steps)
    ensures var d' := After(world, d, steps);
      && OneHolder(d')
      && (NoOverwrite(steps) ==> Whole(world, d'.file))
      && (NoOverwrite(steps) && (forall c :: world.parse(world.render(c)) == Some(c)) ==>
            world.parse(d'.file).Some? && WellFormed(world.parse(d'.file).value, world.isNetwork))
  {
    hide WellFormed;
    RunOneHolder(world, d, steps);
    if NoOverwrite(steps) {
      RunSafe(world, d, steps);
    }
  }

  // ---- Writing in place ----

  lemma {:induction false} Prefix(world: World, d: Disk, steps: seq<Step>, k: nat)
    requires Possible(world, d, steps) && k <= |steps|
    ensures Possible(world, d, steps[..k])
    ensures k < |steps| ==>
      var d' := After(world, d, steps[..k]);
      Enabled(world, d', steps[k]) && Possible(world, d, steps[..k + 1])
      && After(world, d, steps[..k + 1]) == Apply(world, d', steps[k])
    decreases k
  {
    hide Apply, Enabled;
    if k == 0 {
      if steps != [] {
        assert steps[..1][1..] == [];
        var d' := Apply(world, d, steps[0]);
        assert Possible(world, d', []) && After(world, d', []) == d';
      }
    } else {
      Prefix(world, Apply(world, d, steps[0]), steps[1..], k - 1);
      assert steps[..k][1..] == steps[1..][..k - 1];
      if k < |steps| {
        assert steps[..k + 1][1..] == steps[1..][..k];
      }
    }
  }

  /** The file after the first `k` steps. */
  function FileAt(world: World, d: Disk, steps: seq<Step>, k: nat): string
    requires Possible(world, d, steps) && k <= |steps|
  {
    Prefix(world, d, steps, k);
    After(world, d, steps[..k]).file
  }

  lemma Emptied(world: World, d: Disk, steps: seq<Step>, k: nat)
    requires Possible(world, d, steps) && k < |steps| && steps[k].Truncate?
    ensures FileAt(world, d, steps, k + 1) == ""
  {
    hide Possible, After;
    Prefix(world, d, steps, k);
  }

  /** In every run of any number of writers the file is a whole, valid configuration all along, if and only if nobody
      opens it to write it in place; the empty text is taken not to be one. */
  lemma WholeExact(world: World, d: Disk, steps: seq<Step>)
    requires Start(world, d) && Possible(world, d, steps) && !Whole(world, "")
    ensures (forall k :: 0 <= k <= |steps| ==> Whole(world, FileAt(world, d, steps, k))) <==> NoOverwrite(steps)
  {
    hide Possible, After, Whole;
    if NoOverwrite(steps) {
      forall k | 0 <= k <= |steps|
        ensures Whole(world, FileAt(world, d, steps, k))
      {
        Prefix(world, d, steps, k);
        WriterSafety(world, d, steps[..k]);
      }
    } else {
      var k :| 0 <= k < |steps| && steps[k].Truncate?;
      Emptied(world, d, steps, k);
      assert !Whole(world, FileAt(world, d, steps, k + 1));
    }
  }

  // ---- A crash inside the lock ----

  /** The lock file is there and nobody holds the lock. */
  predicate Stale(d: Disk) { d.locked && forall w :: w in d.at ==> !Holds(d.at[w]) }

  /** Nobody gets in past a stale lock, and only writing in place changes the file. */
  lemma StaleStep(world: World, d: Disk, s: Step)
    requires Stale(d) && Enabled(world, d, s)
    ensures var d' := Apply(world, d, s);
      && Stale(d')
      && (!s.Truncate? && !s.Append? ==> d'.file == d.file)
      && (!s.Truncate? && NobodyOverwrites(d) ==> NobodyOverwrites(d'))
  {
    hide WellFormed, WriteAt;
  }

  lemma {:induction false} StaleLock(world: World, d: Disk, steps: seq<Step>)
    requires Stale(d) && Possible(world, d, steps)
    ensures Stale(After(world, d, steps))
    ensures NobodyOverwrites(d) && NoOverwrite(steps) ==> After(world, d, steps).file == d.file
    decreases |steps|
  {
    hide Stale, NobodyOverwrites, Apply;
    if steps != [] {
      var d' := Apply(world, d, steps[0]);
      StaleStep(world, d, steps[0]);
      StaleLock(world, d', steps[1..]);
      if NobodyOverwrites(d) && NoOverwrite(steps) {
        assert !steps[0].Append? by { NobodyAppends(world, d, steps[0]); }
      }
    }
  }

  lemma NobodyAppends(world: World, d: Disk, s: Step)
    requires NobodyOverwrites(d) && Enabled(world, d, s)
    ensures !s.Append?
  {
  }

  /** A writer that crashes inside leaves its lock file behind: whatever happens afterwards nobody gets in again, and
      the configuration file never changes if and only if nobody writes it in place. */
  lemma CrashInsideFreezes(world: World, d: Disk, w: Writer, steps: seq<Step>)
    requires OneHolder(d) && NobodyOverwrites(d) && d.file != ""
    requires w in d.at && Holds(d.at[w]) && Possible(world, d, [Crash(w)] + steps)
    ensures Stale(After(world, d, [Crash(w)] + steps))
    ensures (forall k :: 0 <= k <= |steps| + 1 ==> FileAt(world, d, [Crash(w)] + steps, k) == d.file)
      <==> NoOverwrite(steps)
  {
    hide WellFormed;
    var all, d' := [Crash(w)] + steps, Apply(world, d, Crash(w));
    assert all[1..] == steps;
    assert Stale(d') && NobodyOverwrites(d');
    StaleLock(world, d', steps);
    hide Apply, Enabled, Stale, NobodyOverwrites, Holds, OneHolder;
    if NoOverwrite(steps) {
      forall k | 0 <= k <= |all|
        ensures FileAt(world, d, all, k) == d.file
      {
        Prefix(world, d, all, k);
        if k > 0 {
          assert all[..k][1..] == steps[..k - 1];
          Prefix(world, d', steps, k - 1);
          StaleLock(world, d', steps[..k - 1]);
        }
      }
    } else {
      var k :| 0 <= k < |steps| && steps[k].Truncate?;
      Emptied(world, d, all, k + 1);
      assert FileAt(world, d, all, k + 2) != d.file;
    }
  }

  // ---- A crash while writing in place ----

  predicate Loads(world: World, text: string) {
    world.parse(text).Some? && WellFormed(world.parse(text).value, world.isNetwork)
  }

  /** The file cannot be loaded and nobody has a configuration in hand. */
  predicate Broken(world: World, d: Disk) {
    !Loads(world, d.file) && forall w :: w in d.at ==> d.at[w].Idle? || d.at[w].Crashed?
  }

  /** A file that cannot be loaded is never repaired through the editor, which loads it first. */
  lemma {:induction false} BrokenStays(world: World, d: Disk, steps: seq<Step>)
    requires Broken(world, d) && Possible(world, d, steps) && NoOverwrite(steps)
    ensures After(world, d, steps).file == d.file && Broken(world, After(world, d, steps))
    decreases |steps|
  {
    hide WellFormed, WriteAt;
    if steps != [] {
      BrokenStays(world, Apply(world, d, steps[0]), steps[1..]);
    }
  }

  /** The disk after a writer has opened the file, written a part of its text in place and crashed. */
  function CutShort(world: World, d: Disk, w: Writer, c: Config, upTo: nat): Disk
    requires upTo <= |world.render(c)|
  {
    Goes(d.(file := world.render(c)[..upTo]), w, Crashed)
  }

  lemma CutShortSteps(world: World, d: Disk, w: Writer, c: Config, upTo: nat)
    requires w in d.at && d.at[w].Idle? && upTo <= |world.render(c)|
    ensures Enabled(world, d, Truncate(w, c))
    ensures var d1 := Apply(world, d, Truncate(w, c));
      && Enabled(world, d1, Append(w, upTo))
      && var d2 := Apply(world, d1, Append(w, upTo));
         Enabled(world, d2, Crash(w)) && Apply(world, d2, Crash(w)) == CutShort(world, d, w, c, upTo)
  {
    hide WellFormed;
    var text := world.render(c);
    assert WriteAt("", 0, text[0..upTo]) == text[..upTo];
  }

  lemma CutShortReached(world: World, d: Disk, w: Writer, c: Config, upTo: nat)
    requires w in d.at && d.at[w].Idle? && upTo <= |world.render(c)|
    ensures var steps := [Truncate(w, c), Append(w, upTo), Crash(w)];
      Possible(world, d, steps) && After(world, d, steps) == CutShort(world, d, w, c, upTo)
  {
    hide Apply, Enabled;
    CutShortSteps(world, d, w, c, upTo);
    var d1 := Apply(world, d, Truncate(w, c));
    var d2 := Apply(world, d1, Append(w, upTo));
    var d3 := Apply(world, d2, Crash(w));
    var steps := [Truncate(w, c), Append(w, upTo), Crash(w)];
    assert steps[1..] == [Append(w, upTo), Crash(w)] && steps[1..][1..] == [Crash(w)] && [Crash(w)][1..] == [];
    assert Possible(world, d3, []) && After(world, d3, []) == d3;
    assert Possible(world, d2, [Crash(w)]) && After(world, d2, [Crash(w)]) == d3;
    assert Possible(world, d1, steps[1..]) && After(world, d1, steps[1..]) == d3;
  }

  /** One writer crashes while it writes the file in place: if what is there by then cannot be loaded, it stays until
      somebody writes it in place again. */
  lemma OverwriteCrash(world: World, d: Disk, w: Writer, c: Config, upTo: nat, steps: seq<Step>)
    requires (forall v :: v in d.at ==> d.at[v].Idle?) && w in d.at && upTo <= |world.render(c)|
    requires !Loads(world, world.render(c)[..upTo])
    requires Possible(world, CutShort(world, d, w, c, upTo), steps) && NoOverwrite(steps)
    ensures After(world, CutShort(world, d, w, c, upTo), steps).file == world.render(c)[..upTo]
  {
    hide Possible, After, WellFormed;
    BrokenStays(world, CutShort(world, d, w, c, upTo), steps);
  }

  /** What creating the lock file exclusively may answer. */
  datatype Creation = Created | AlreadyExists | Failed

  datatype Lock = Guard | Busy | Error

  /** The retry loop around the exclusive creation of the lock file, attempt `i` answering `create(i)`: the first of
      five attempts that does not find the file decides. */
  method AcquireLock(create: nat -> Creation) returns (lock: Lock, attempts: nat)
    ensures attempts <= 5 && forall i :: 0 <= i < attempts ==> create(i) == AlreadyExists
    ensures lock == Busy <==> attempts == 5
    ensures lock == Guard <==> attempts < 5 && create(attempts) == Created
    ensures lock == Error <==> attempts < 5 && create(attempts) == Failed
  {
    for attempt := 0 to 5
      invariant forall i :: 0 <= i < attempt ==> create(i) == AlreadyExists
    {
      match create(attempt) {
        case Created => return Guard, attempt;
        case AlreadyExists =>
        case Failed => return Error, attempt;
      }
    }
    return Busy, 5;
  }
}
