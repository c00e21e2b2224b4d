/** Named connections and destinations: the config file holds references, the keychain the
    secrets. Commands run one at a time here, and any step may fail or be the last. */
module ConfigStore {
  import opened Wrappers
  import opened Text

  // ---------------------------------------------------------- references

  /** A reference to a secret; exactly one of the two names is set. */
  datatype Ref = Ref(keyring: string, env: string)

  predicate Empty(r: Ref) {
    r.keyring == "" && r.env == ""
  }

  const KEYRING := "keyring:"
  const ENV := "env:"

  function RefText(r: Ref): string {
    if r.keyring != "" then KEYRING + r.keyring else ENV + r.env
  }

  function ParseRef(text: string): Option<Ref> {
    var s := TrimSpace(text);
    if KEYRING <= s then NonEmpty(Ref(s[|KEYRING|..], ""))
    else if ENV <= s then NonEmpty(Ref("", s[|ENV|..]))
    else None
  }

  function NonEmpty(r: Ref): Option<Ref> {
    if Empty(r) then None else Some(r)
  }

  /** A reference whose name does not end in white space. */
  predicate Tidy(r: Ref) {
    (r.keyring == "") != (r.env == "")
    && (r.keyring != "" ==> !Space(r.keyring[|r.keyring| - 1]))
    && (r.env != "" ==> !Space(r.env[|r.env| - 1]))
  }

  lemma TrimOfText(head: string, name: string)
    requires head == KEYRING || head == ENV
    ensures TrimSpace(head + name) == head + TrimRight(name)
  {
    assert head[|head| - 1] == ':' && (head + name)[0] == head[0];
    TrimRightAfter(head, name);
  }

  lemma ParseOfHead(head: string, name: string)
    requires head == KEYRING || head == ENV
    ensures ParseRef(head + name)
         == NonEmpty(if head == KEYRING then Ref(TrimRight(name), "") else Ref("", TrimRight(name)))
  {
    TrimOfText(head, name);
    var s := head + TrimRight(name);
    assert s[|head|..] == TrimRight(name);
    assert s[0] == head[0] && KEYRING[0] == 'k' && ENV[0] == 'e';
  }

  /** A reference written to the file reads back as itself exactly if its name does not end
      in white space, and is refused when the file is loaded exactly if it is blank. */
  lemma RefReadsBack(r: Ref)
    requires (r.keyring == "") != (r.env == "")
    ensures RefText(r) == if r.keyring != "" then "keyring:" + r.keyring else "env:" + r.env
    ensures ParseRef(RefText(r)) == Some(r) <==> Tidy(r)
    ensures ParseRef(RefText(r)) == None <==> TrimRight(r.keyring) == "" && TrimRight(r.env) == ""
  {
    TrimRightEnd(r.keyring);
    TrimRightEnd(r.env);
    if r.keyring != "" {
      ParseOfHead(KEYRING, r.keyring);
    } else {
      ParseOfHead(ENV, r.env);
    }
  }

  /** White space around a reference does not matter, and without one of the two words
      in front, or without a name behind it, nothing is a reference. */
  lemma PaddedReadsBack(pad: string, text: string, pad': string)
    requires Blank(pad) && Blank(pad')
    ensures ParseRef(pad + text + pad') == ParseRef(text)
    ensures !("keyring:" <= TrimSpace(text)) && !("env:" <= TrimSpace(text)) ==> ParseRef(text) == None
    ensures TrimSpace(text) == "keyring:" || TrimSpace(text) == "env:" ==> ParseRef(text) == None
  {
    TrimPadded(pad, text, pad');
  }

  /** What is read from a file is tidy, so it survives being written again. */
  lemma ParsedIsTidy(text: string)
    requires ParseRef(text).Some?
    ensures Tidy(ParseRef(text).value)
  {
    var s := TrimSpace(text);
    TrimRightEnd(TrimLeft(text));
    assert KEYRING[0] == 'k' && ENV[0] == 'e';
    if KEYRING <= s {
      assert s[|KEYRING|..] != "" ==> s[|KEYRING|..][|s| - |KEYRING| - 1] == s[|s| - 1];
    } else {
      assert s[|ENV|..] != "" ==> s[|ENV|..][|s| - |ENV| - 1] == s[|s| - 1];
    }
  }

  // ------------------------------------------------------------ the config

  /** `info` stands for the fields that hold no secret. */
  datatype Connection = Connection(info: string, password: Ref)
  datatype Destination = Destination(info: string, accessKey: Option<Ref>, secretKey: Option<Ref>,
                                     sessionToken: Option<Ref>)
  datatype Config = Config(connections: map<string, Connection>, destinations: map<string, Destination>)

  /** The file: the same records with references as text. */
  datatype ConnectionText = ConnectionText(info: string, password: string)
  datatype DestinationText = DestinationText(info: string, accessKey: Option<string>, secretKey: Option<string>,
                                             sessionToken: Option<string>)
  datatype File = File(connections: map<string, ConnectionText>, destinations: map<string, DestinationText>)

  function OptionText(r: Option<Ref>): Option<string> {
    match r
    case None => None
    case Some(ref) => Some(RefText(ref))
  }

  function DestinationTextOf(d: Destination): DestinationText {
    DestinationText(d.info, OptionText(d.accessKey), OptionText(d.secretKey), OptionText(d.sessionToken))
  }

  function Encode(cfg: Config): File {
    File(map n | n in cfg.connections :: ConnectionText(cfg.connections[n].info, RefText(cfg.connections[n].password)),
         map n | n in cfg.destinations :: DestinationTextOf(cfg.destinations[n]))
  }

  predicate OptionLoads(text: Option<string>) {
    text.Some? ==> ParseRef(text.value).Some?
  }

  predicate DestinationLoads(d: DestinationText) {
    OptionLoads(d.accessKey) && OptionLoads(d.secretKey) && OptionLoads(d.sessionToken)
  }

  predicate Loads(f: File) {
    && (forall n :: n in f.connections ==> ParseRef(f.connections[n].password).Some?)
    && (forall n :: n in f.destinations ==> DestinationLoads(f.destinations[n]))
  }

  function OptionRef(text: Option<string>): Option<Ref> {
    match text
    case None => None
    case Some(t) => ParseRef(t)
  }

  function DestinationOf(d: DestinationText): Destination {
    Destination(d.info, OptionRef(d.accessKey), OptionRef(d.secretKey), OptionRef(d.sessionToken))
  }

  function Decode(f: File): Config
    requires Loads(f)
  {
    Config(map n | n in f.connections :: Connection(f.connections[n].info, ParseRef(f.connections[n].password).value),
           map n | n in f.destinations :: DestinationOf(f.destinations[n]))
  }

  predicate OptionTidy(r: Option<Ref>) {
    r.Some? ==> Tidy(r.value)
  }

  predicate DestinationTidy(d: Destination) {
    OptionTidy(d.accessKey) && OptionTidy(d.secretKey) && OptionTidy(d.sessionToken)
  }

  predicate ConfigTidy(cfg: Config) {
    && (forall n :: n in cfg.connections ==> Tidy(cfg.connections[n].password))
    && (forall n :: n in cfg.destinations ==> DestinationTidy(cfg.destinations[n]))
  }

  lemma OptionReadsBack(r: Option<Ref>)
    requires OptionTidy(r)
    ensures OptionLoads(OptionText(r)) && OptionRef(OptionText(r)) == r
  {
    if r.Some? {
      RefReadsBack(r.value);
    }
  }

  lemma DestinationReadsBack(d: Destination)
    requires DestinationTidy(d)
    ensures DestinationLoads(DestinationTextOf(d)) && DestinationOf(DestinationTextOf(d)) == d
  {
    hide OptionTidy, OptionText, OptionLoads, OptionRef;
    OptionReadsBack(d.accessKey);
    OptionReadsBack(d.secretKey);
    OptionReadsBack(d.sessionToken);
  }

  /** A tidy configuration is read back as it was written. */
  lemma ConfigReadsBack(cfg: Config)
    requires ConfigTidy(cfg)
    ensures Loads(Encode(cfg)) && Decode(Encode(cfg)) == cfg
  {
    hide Tidy, DestinationTidy, ParseRef, RefText, DestinationLoads, DestinationTextOf, DestinationOf;
    forall n | n in cfg.connections
      ensures ParseRef(RefText(cfg.connections[n].password)) == Some(cfg.connections[n].password)
    {
      TidyReadsBack(cfg.connections[n].password);
    }
    forall n | n in cfg.destinations
      ensures DestinationLoads(DestinationTextOf(cfg.destinations[n]))
      ensures DestinationOf(DestinationTextOf(cfg.destinations[n])) == cfg.destinations[n]
    {
      DestinationReadsBack(cfg.destinations[n]);
    }
  }

  lemma TidyReadsBack(r: Ref)
    requires Tidy(r)
    ensures ParseRef(RefText(r)) == Some(r)
  {
    RefReadsBack(r);
  }

  /** What was loaded is tidy. */
  lemma LoadedIsTidy(f: File)
    requires Loads(f)
    ensures ConfigTidy(Decode(f))
  {
    hide Tidy, ParseRef;
    forall n | n in f.connections
      ensures Tidy(ParseRef(f.connections[n].password).value)
    {
      ParsedIsTidy(f.connections[n].password);
    }
    forall n | n in f.destinations
      ensures DestinationTidy(DestinationOf(f.destinations[n]))
    {
      OptionIsTidy(f.destinations[n].accessKey);
      OptionIsTidy(f.destinations[n].secretKey);
      OptionIsTidy(f.destinations[n].sessionToken);
    }
  }

  lemma OptionIsTidy(text: Option<string>)
    requires OptionLoads(text)
    ensures OptionTidy(OptionRef(text))
  {
    if text.Some? {
      ParsedIsTidy(text.value);
    }
  }

  // ------------------------------------------------------ references in use

  function OptionName(r: Option<Ref>): set<string> {
    match r
    case None => {}
    case Some(ref) => Name(ref)
  }

  function Name(r: Ref): set<string> {
    if r.keyring == "" then {} else {r.keyring}
  }

  function DestinationNames(d: Destination): set<string> {
    OptionName(d.accessKey) + OptionName(d.secretKey) + OptionName(d.sessionToken)
  }

  /** The keychain entries a configuration refers to. */
  ghost function Names(cfg: Config): set<string> {
    (set n, k | n in cfg.connections && k in Name(cfg.connections[n].password) :: k)
    + (set n, k | n in cfg.destinations && k in DestinationNames(cfg.destinations[n]) :: k)
  }

  lemma DestinationUses(d: Destination, name: string)
    requires name != ""
    ensures name in DestinationNames(d) <==>
              || (d.accessKey.Some? && d.accessKey.value.keyring == name)
              || (d.secretKey.Some? && d.secretKey.value.keyring == name)
              || (d.sessionToken.Some? && d.sessionToken.value.keyring == name)
  {
  }

  lemma NamesAreUsed(cfg: Config, name: string)
    requires name != ""
    ensures name in Names(cfg) <==>
              || (exists n :: n in cfg.connections && cfg.connections[n].password.keyring == name)
              || (exists n :: n in cfg.destinations && name in DestinationNames(cfg.destinations[n]))
  {
    hide DestinationNames;
    forall n | n in cfg.connections
      ensures name in Name(cfg.connections[n].password) <==> cfg.connections[n].password.keyring == name
    {
    }
  }

  /** All names in use are there: reference by reference. */
  lemma NamesMean(cfg: Config, entries: set<string>)
    ensures Names(cfg) <= entries <==>
              && (forall n :: n in cfg.connections && cfg.connections[n].password.keyring != "" ==>
                    cfg.connections[n].password.keyring in entries)
              && (forall n :: n in cfg.destinations ==>
                    var d := cfg.destinations[n];
                    && (d.accessKey.Some? && d.accessKey.value.keyring != "" ==> d.accessKey.value.keyring in entries)
                    && (d.secretKey.Some? && d.secretKey.value.keyring != "" ==> d.secretKey.value.keyring in entries)
                    && (d.sessionToken.Some? && d.sessionToken.value.keyring != "" ==>
                          d.sessionToken.value.keyring in entries))
  {
    hide DestinationNames, Name;
    forall n | n in cfg.connections
      ensures Name(cfg.connections[n].password) <= entries
         <==> cfg.connections[n].password.keyring == "" || cfg.connections[n].password.keyring in entries
    {
      NameMeans(cfg.connections[n].password, entries);
    }
    forall n | n in cfg.destinations
      ensures var d := cfg.destinations[n];
              DestinationNames(d) <= entries <==>
                && (d.accessKey.Some? && d.accessKey.value.keyring != "" ==> d.accessKey.value.keyring in entries)
                && (d.secretKey.Some? && d.secretKey.value.keyring != "" ==> d.secretKey.value.keyring in entries)
                && (d.sessionToken.Some? && d.sessionToken.value.keyring != "" ==>
                      d.sessionToken.value.keyring in entries)
    {
      DestinationNamesMean(cfg.destinations[n], entries);
    }
    NamesWithin(cfg, entries);
  }

  lemma NameMeans(r: Ref, entries: set<string>)
    ensures Name(r) <= entries <==> r.keyring == "" || r.keyring in entries
  {
  }

  lemma DestinationNamesMean(d: Destination, entries: set<string>)
    ensures DestinationNames(d) <= entries <==>
              && (d.accessKey.Some? && d.accessKey.value.keyring != "" ==> d.accessKey.value.keyring in entries)
              && (d.secretKey.Some? && d.secretKey.value.keyring != "" ==> d.secretKey.value.keyring in entries)
              && (d.sessionToken.Some? && d.sessionToken.value.keyring != "" ==>
                    d.sessionToken.value.keyring in entries)
  {
  }

  lemma NamesWithin(cfg: Config, entries: set<string>)
    ensures Names(cfg) <= entries <==>
              && (forall n :: n in cfg.connections ==> Name(cfg.connections[n].password) <= entries)
              && (forall n :: n in cfg.destinations ==> DestinationNames(cfg.destinations[n]) <= entries)
  {
    hide DestinationNames, Name;
    forall n | n in cfg.connections
      ensures Name(cfg.connections[n].password) <= Names(cfg)
    {
    }
    forall n | n in cfg.destinations
      ensures DestinationNames(cfg.destinations[n]) <= Names(cfg)
    {
    }
  }

  /** secretRefStillUsed: no other record refers to the entry. */
  method SecretRefStillUsed(cfg: Config, name: string) returns (used: bool)
    requires name != ""
    ensures used <==> name in Names(cfg)
    ensures used <==>
              || (exists n :: n in cfg.connections && cfg.connections[n].password.keyring == name)
              || (exists n :: n in cfg.destinations &&
                    (|| (cfg.destinations[n].accessKey.Some? && cfg.destinations[n].accessKey.value.keyring == name)
                     || (cfg.destinations[n].secretKey.Some? && cfg.destinations[n].secretKey.value.keyring == name)
                     || (cfg.destinations[n].sessionToken.Some?
                         && cfg.destinations[n].sessionToken.value.keyring == name)))
  {
    hide Names, DestinationNames, Name;
    NamesAreUsed(cfg, name);
    forall n | n in cfg.destinations
      ensures name in DestinationNames(cfg.destinations[n]) <==>
              || (cfg.destinations[n].accessKey.Some? && cfg.destinations[n].accessKey.value.keyring == name)
              || (cfg.destinations[n].secretKey.Some? && cfg.destinations[n].secretKey.value.keyring == name)
              || (cfg.destinations[n].sessionToken.Some? && cfg.destinations[n].sessionToken.value.keyring == name)
    {
      DestinationUses(cfg.destinations[n], name);
    }
    var left := cfg.connections.Keys;
    while left != {}
      invariant left <= cfg.connections.Keys
      invariant forall n :: n in cfg.connections && n !in left ==> cfg.connections[n].password.keyring != name
      decreases |left|
    {
      var n: string :| n in left;
      if cfg.connections[n].password.keyring == name {
        return true;
      }
      left := left - {n};
    }
    var rest := cfg.destinations.Keys;
    while rest != {}
      invariant rest <= cfg.destinations.Keys
      invariant forall n :: n in cfg.destinations && n !in rest ==> name !in DestinationNames(cfg.destinations[n])
      decreases |rest|
    {
      var n: string :| n in rest;
      if name in DestinationNames(cfg.destinations[n]) {
        return true;
      }
      rest := rest - {n};
    }
    return false;
  }

  // ----------------------------------------------------------- the commands

  datatype Outcome = Done | Failed(undone: bool) | Crashed

  /** What outlives a command. */
  datatype State = State(file: File, entries: map<string, string>)

  function WithConnection(cfg: Config, name: string, conn: Connection): Config {
    cfg.(connections := cfg.connections[name := conn])
  }

  function WithoutConnection(cfg: Config, name: string): Config {
    cfg.(connections := cfg.connections - {name})
  }

  function WithDestination(cfg: Config, name: string, dst: Destination): Config {
    cfg.(destinations := cfg.destinations[name := dst])
  }

  function WithoutDestination(cfg: Config, name: string): Config {
    cfg.(destinations := cfg.destinations - {name})
  }

  function WithSecret(entries: map<string, string>, ref: Ref, secret: string): map<string, string> {
    if ref.keyring == "" then entries else entries[ref.keyring := secret]
  }

  /** Adding: the secret is stored before the file changes, and a failure whose undo
      succeeded leaves everything as it was. */
  ghost predicate Added(s: State, t: State, name: string, conn: Connection, secret: string, out: Outcome) {
    var stored := WithSecret(s.entries, conn.password, secret);
    var changed := Loads(s.file) && t.file == Encode(WithConnection(Decode(s.file), name, conn)) && t.entries == stored;
    && (changed || (t.file == s.file && (t.entries == s.entries || t.entries == stored)))
    && (out.Done? ==> changed)
    && (out.Failed? ==> t.file == s.file)
    && (out == Failed(true) ==> t == s)
  }

  /** Removing: the file changes first, and only entries nothing refers to any more go. */
  ghost predicate Removed(s: State, t: State, cfg: Config, names: set<string>, out: Outcome) {
    var changed := t.file == Encode(cfg)
      && exists gone: set<string> :: gone <= names && gone !! Names(cfg) && t.entries == s.entries - gone;
    && (changed || t == s)
    && (out.Done? ==> changed)
    && (out.Failed? ==> t == s)
  }

  datatype Lookup = Found(value: string) | NotFound | Unreadable

  /** How to put the keychain back. */
  datatype Undo = Nothing | Restore(name: string, value: string) | Delete(name: string)

  function Undone(u: Undo, entries: map<string, string>): map<string, string> {
    match u
    case Nothing => entries
    case Restore(name, value) => entries[name := value]
    case Delete(name) => entries - {name}
  }

  /** The names of the first i references of a destination. */
  ghost function NamesOfFirst(d: Destination, i: nat): set<string> {
    (if i > 0 then OptionName(d.accessKey) else {}) + (if i > 1 then OptionName(d.secretKey) else {})
    + (if i > 2 then OptionName(d.sessionToken) else {})
  }

  lemma MinusTwice(entries: map<string, string>, a: set<string>, b: set<string>, used: set<string>)
    ensures entries - (a - used) - (b - used) == entries - (a + b - used)
  {
  }

  class Machine {
    var file: File
    var entries: map<string, string>
    var locked: bool
    /** The file was loaded under the lock held now. */
    ghost var loaded: bool
    /** How many calls to the keychain have failed, and how often something else went wrong:
        the lock or the file, or the process died. */
    ghost var keyFaults: nat
    ghost var faults: nat

    constructor (file: File, entries: map<string, string>)
      ensures this.file == file && this.entries == entries && !locked
    {
      this.file, this.entries, locked := file, entries, false;
      loaded, keyFaults, faults := false, 0, 0;
    }

    ghost method KeyFault(failed: bool)
      modifies this`keyFaults
      ensures keyFaults == old(keyFaults) + if failed then 1 else 0
    {
      keyFaults := keyFaults + if failed then 1 else 0;
    }

    ghost method Fault(failed: bool)
      modifies this`faults
      ensures faults == old(faults) + if failed then 1 else 0
    {
      faults := faults + if failed then 1 else 0;
    }

    function Now(): State
      reads this
    {
      State(file, entries)
    }

    method Get(name: string) returns (r: Lookup)
      modifies this`keyFaults
      ensures keyFaults == old(keyFaults) + if r.Unreadable? then 1 else 0
      ensures r.Found? ==> name in entries && entries[name] == r.value
      ensures r.NotFound? ==> name !in entries
    {
      var broken: bool := *;
      r := if broken then Unreadable else if name in entries then Found(entries[name]) else NotFound;
      KeyFault(broken);
    }

    /** A failing call may or may not have taken effect. */
    method Set(name: string, value: string) returns (ok: bool)
      modifies this`entries, this`keyFaults
      ensures keyFaults == old(keyFaults) + if ok then 0 else 1
      ensures entries == old(entries) || entries == old(entries)[name := value]
      ensures ok ==> entries == old(entries)[name := value]
    {
      var effect: bool, reply: bool := *, *;
      if effect {
        entries := entries[name := value];
      }
      ok := effect && reply;
      KeyFault(!ok);
    }

    /** An entry that is missing counts as deleted. */
    method Remove(name: string) returns (ok: bool)
      modifies this`entries, this`keyFaults
      ensures keyFaults == old(keyFaults) + if ok then 0 else 1
      ensures entries == old(entries) || entries == old(entries) - {name}
      ensures ok ==> entries == old(entries) - {name}
    {
      var effect: bool, reply: bool := *, *;
      if effect {
        entries := entries - {name};
      }
      ok := effect && reply;
      KeyFault(!ok);
    }

    /** The commands modelled load under the lock. */
    method Load() returns (r: Option<Config>)
      requires locked
      modifies this`faults, this`loaded
      ensures loaded == r.Some?
      ensures r.Some? ==> Loads(file) && r.value == Decode(file)
      ensures faults == old(faults) + if r.None? && Loads(file) then 1 else 0
    {
      var broken: bool := *;
      Fault(broken && Loads(file));
      r := if !broken && Loads(file) then Some(Decode(file)) else None;
      loaded := r.Some?;
    }

    /** The new file replaces the old one in one step, or not at all; what is saved was made
        of what was loaded under the same lock. */
    method SaveLocked(cfg: Config) returns (ok: bool)
      requires locked && loaded
      modifies this`file, this`faults
      ensures file == if ok then Encode(cfg) else old(file)
      ensures faults == old(faults) + if ok then 0 else 1
    {
      ok := *;
      Fault(!ok);
      if ok {
        file := Encode(cfg);
      }
    }

    method TryLock() returns (ok: bool)
      modifies this`locked, this`loaded, this`faults
      ensures !loaded
      ensures ok ==> !old(locked) && locked
      ensures !ok ==> locked == old(locked)
      ensures faults == old(faults) + if !ok && !old(locked) then 1 else 0
    {
      var broken: bool := *;
      Fault(broken && !locked);
      loaded := false;
      ok := !broken && !locked;
      locked := locked || ok;
    }

    method Unlock()
      modifies this`locked
      ensures !locked
    {
      locked := false;
    }

    /** Stores a secret and says how to undo that; refused if the entry cannot be read first. */
    method StoreWithRollback(name: string, value: string) returns (r: Option<Undo>)
      modifies this`entries, this`keyFaults
      ensures r.None? <==> keyFaults > old(keyFaults)
      ensures old(keyFaults) <= keyFaults
      ensures r.Some? ==> entries == old(entries)[name := value] && Undone(r.value, entries) == old(entries)
      ensures entries == old(entries) || entries == old(entries)[name := value]
    {
      var prev := Get(name);
      if prev.Unreadable? {
        return None;
      }
      var ok := Set(name, value);
      if !ok {
        return None;
      }
      if prev.Found? {
        return Some(Restore(name, prev.value));
      }
      return Some(Delete(name));
    }

    method RunUndo(u: Undo) returns (ok: bool)
      modifies this`entries, this`keyFaults
      ensures keyFaults == old(keyFaults) + if ok then 0 else 1
      ensures entries == old(entries) || entries == Undone(u, old(entries))
      ensures ok ==> entries == Undone(u, old(entries))
    {
      match u
      case Nothing => ok := true;
      case Restore(name, value) => ok := Set(name, value);
      case Delete(name) => ok := Remove(name);
    }

    /** The process may die between any two steps; its lock dies with it. */
    method Dies() returns (dead: bool)
      modifies this`locked, this`faults
      ensures locked == if dead then false else old(locked)
      ensures faults == old(faults) + if dead then 1 else 0
    {
      dead := *;
      Fault(dead);
      locked := locked && !dead;
    }

    method UpsertConnection(name: string, conn: Connection) returns (out: Outcome)
      requires !locked
      modifies this`file, this`locked, this`loaded, this`faults
      ensures !locked && old(faults) <= faults
      ensures faults == old(faults) ==> out == if Loads(old(file)) then Done else Failed(false)
      ensures out.Crashed? ==> faults > old(faults)
      ensures out.Done? ==>
                && Loads(old(file))
                && file == Encode(Config(Decode(old(file)).connections[name := conn], Decode(old(file)).destinations))
      ensures var changed := Loads(old(file)) && file == Encode(WithConnection(Decode(old(file)), name, conn));
              (out.Done? ==> changed) && (out.Failed? ==> file == old(file)) && (changed || file == old(file))
    {
      var held := TryLock();
      if !held {
        return Failed(false);
      }
      var cfg := Load();
      if cfg.None? {
        Unlock();
        return Failed(false);
      }
      var dead := Dies();
      if dead {
        return Crashed;
      }
      var saved := SaveLocked(WithConnection(cfg.value, name, conn));
      dead := Dies();
      if dead {
        return Crashed;
      }
      Unlock();
      return if saved then Done else Failed(false);
    }

    /** Deletes the secret of a removed record unless another record refers to it. */
    method RemoveUnused(ref: Ref, cfg: Config)
      modifies this`entries, this`keyFaults
      ensures entries == old(entries)
           || (ref.keyring != "" && ref.keyring !in Names(cfg) && entries == old(entries) - {ref.keyring})
      ensures old(keyFaults) <= keyFaults
      ensures keyFaults == old(keyFaults) ==> entries == old(entries) - (Name(ref) - Names(cfg))
    {
      hide Names;
      assert entries == entries - {};
      if ref.keyring != "" {
        var used := SecretRefStillUsed(cfg, ref.keyring);
        assert Name(ref) - Names(cfg) == if used then {} else {ref.keyring};
        if !used {
          var _ := Remove(ref.keyring);
        }
      } else {
        assert Name(ref) - Names(cfg) == {};
      }
    }

    /** The secret first, then the file; if the file is not written, the keychain is put back. */
    method ConnectionsAdd(name: string, conn: Connection, secret: string) returns (out: Outcome)
      requires !locked
      modifies this
      ensures !locked && Added(old(Now()), Now(), name, conn, secret, out)
      ensures old(faults) <= faults && old(keyFaults) <= keyFaults
      ensures faults == old(faults) && keyFaults == old(keyFaults) ==>
                out == if Loads(old(file)) then Done else Failed(true)
      ensures keyFaults == old(keyFaults) && out.Failed? ==> out == Failed(true) && Now() == old(Now())
      ensures out.Done? ==>
                && Loads(old(file))
                && file == Encode(Config(Decode(old(file)).connections[name := conn], Decode(old(file)).destinations))
                && entries == (if conn.password.keyring == "" then old(entries)
                               else old(entries)[conn.password.keyring := secret])
      ensures out.Crashed? ==> faults > old(faults)
    {
      var undo := Nothing;
      if conn.password.keyring != "" {
        var stored := StoreWithRollback(conn.password.keyring, secret);
        if stored.None? {
          return Failed(false);
        }
        undo := stored.value;
      }
      var dead := Dies();
      if dead {
        return Crashed;
      }
      out := UpsertConnection(name, conn);
      if out.Failed? {
        var undone := RunUndo(undo);
        return Failed(undone);
      }
    }

    method ConnectionsRm(name: string) returns (out: Outcome)
      requires !locked
      modifies this
      ensures !locked
      ensures if Loads(old(file)) && name in Decode(old(file)).connections then
                Removed(old(Now()), Now(), WithoutConnection(Decode(old(file)), name),
                        Name(Decode(old(file)).connections[name].password), out)
              else Now() == old(Now()) && out == Failed(false)
      ensures old(faults) <= faults && old(keyFaults) <= keyFaults
      ensures Loads(old(file)) && name in Decode(old(file)).connections && faults == old(faults) ==> out.Done?
      ensures out.Done? ==>
                && Loads(old(file)) && name in Decode(old(file)).connections
                && file == Encode(Config(Decode(old(file)).connections - {name}, Decode(old(file)).destinations))
      ensures out.Done? && keyFaults == old(keyFaults) ==>
                var cfg := Decode(old(file));
                entries == old(entries) - (Name(cfg.connections[name].password)
                                           - Names(Config(cfg.connections - {name}, cfg.destinations)))
      ensures out.Crashed? ==> faults > old(faults)
    {
      hide Loads, Decode, Encode, Names;
      var held := TryLock();
      if !held {
        return Failed(false);
      }
      var loaded := Load();
      if loaded.None? || name !in loaded.value.connections {
        Unlock();
        return Failed(false);
      }
      var cfg := WithoutConnection(loaded.value, name);
      var ref := loaded.value.connections[name].password;
      var saved := SaveLocked(cfg);
      if !saved {
        Unlock();
        return Failed(false);
      }
      assert entries == entries - {};
      var dead := Dies();
      if dead {
        return Crashed;
      }
      RemoveUnused(ref, cfg);
      assert entries == old(entries) - {} || entries == old(entries) - {ref.keyring};
      Unlock();
      return Done;
    }

    /** Destinations added by a command hold environment references only. */
    method DestinationsAdd(name: string, dst: Destination) returns (out: Outcome)
      requires !locked
      modifies this`file, this`locked, this`loaded, this`faults
      ensures !locked && old(faults) <= faults
      ensures faults == old(faults) ==> out == if Loads(old(file)) then Done else Failed(false)
      ensures out.Crashed? ==> faults > old(faults)
      ensures out.Done? ==>
                && Loads(old(file))
                && file == Encode(Config(Decode(old(file)).connections, Decode(old(file)).destinations[name := dst]))
      ensures var changed := Loads(old(file)) && file == Encode(WithDestination(Decode(old(file)), name, dst));
              (out.Done? ==> changed) && (out.Failed? ==> file == old(file)) && (changed || file == old(file))
    {
      var held := TryLock();
      if !held {
        return Failed(false);
      }
      var cfg := Load();
      if cfg.None? {
        Unlock();
        return Failed(false);
      }
      var saved := SaveLocked(WithDestination(cfg.value, name, dst));
      var dead := Dies();
      if dead {
        return Crashed;
      }
      Unlock();
      return if saved then Done else Failed(false);
    }

    method DestinationsRm(name: string) returns (out: Outcome)
      requires !locked
      modifies this
      ensures !locked
      ensures if Loads(old(file)) && name in Decode(old(file)).destinations then
                Removed(old(Now()), Now(), WithoutDestination(Decode(old(file)), name),
                        DestinationNames(Decode(old(file)).destinations[name]), out)
              else Now() == old(Now()) && out == Failed(false)
      ensures old(faults) <= faults && old(keyFaults) <= keyFaults
      ensures Loads(old(file)) && name in Decode(old(file)).destinations && faults == old(faults) ==> out.Done?
      ensures out.Done? ==>
                && Loads(old(file)) && name in Decode(old(file)).destinations
                && file == Encode(Config(Decode(old(file)).connections, Decode(old(file)).destinations - {name}))
      ensures out.Done? && keyFaults == old(keyFaults) ==>
                var cfg := Decode(old(file));
                entries == old(entries) - (DestinationNames(cfg.destinations[name])
                                           - Names(Config(cfg.connections, cfg.destinations - {name})))
      ensures out.Crashed? ==> faults > old(faults)
    {
      hide Loads, Decode, Encode, Names;
      var held := TryLock();
      if !held {
        return Failed(false);
      }
      var loaded := Load();
      if loaded.None? || name !in loaded.value.destinations {
        Unlock();
        return Failed(false);
      }
      var cfg := WithoutDestination(loaded.value, name);
      var d := loaded.value.destinations[name];
      var saved := SaveLocked(cfg);
      if !saved {
        Unlock();
        return Failed(false);
      }
      var dead, _ := RemoveAllUnused(d, cfg);
      if dead {
        return Crashed;
      }
      Unlock();
      return Done;
    }

    method RemoveAllUnused(d: Destination, cfg: Config) returns (dead: bool, ghost gone: set<string>)
      requires locked
      modifies this`entries, this`locked, this`keyFaults, this`faults
      ensures locked == !dead
      ensures gone <= DestinationNames(d) && gone !! Names(cfg) && entries == old(entries) - gone
      ensures old(keyFaults) <= keyFaults && faults == old(faults) + if dead then 1 else 0
      ensures keyFaults == old(keyFaults) && !dead ==> entries == old(entries) - (DestinationNames(d) - Names(cfg))
    {
      hide Names;
      gone := {};
      dead := false;
      assert entries == old(entries) - gone;
      assert NamesOfFirst(d, 0) - Names(cfg) == {};
      var refs := [d.accessKey, d.secretKey, d.sessionToken];
      for i := 0 to |refs|
        invariant locked && faults == old(faults) && old(keyFaults) <= keyFaults
        invariant gone <= DestinationNames(d) && gone !! Names(cfg)
        invariant entries == old(entries) - gone
        invariant keyFaults == old(keyFaults) ==> entries == old(entries) - (NamesOfFirst(d, i) - Names(cfg))
      {
        dead := Dies();
        if dead {
          return;
        }
        ghost var was := entries;
        if refs[i].Some? {
          RemoveUnused(refs[i].value, cfg);
          if entries != was {
            gone := gone + {refs[i].value.keyring};
          }
        }
        MinusTwice(old(entries), NamesOfFirst(d, i), OptionName(refs[i]), Names(cfg));
      }
      dead := false;
    }
  }

  // ------------------------------------------------------- what they keep

  /** The file can be read, and every keychain entry it refers to exists. */
  ghost predicate AllResolve(s: State) {
    Loads(s.file) && Names(Decode(s.file)) <= s.entries.Keys
  }

  datatype Command =
    | AddConnection(name: string, conn: Connection, secret: string)
    | RemoveConnection(name: string)
    | AddDestination(name: string, dst: Destination)
    | RemoveDestination(name: string)

  /** What a command run on its own may leave, as the methods above promise. */
  ghost predicate Effect(c: Command, s: State, t: State, out: Outcome) {
    match c
    case AddConnection(name, conn, secret) => Added(s, t, name, conn, secret, out)
    case RemoveConnection(name) =>
      if Loads(s.file) && name in Decode(s.file).connections then
        Removed(s, t, WithoutConnection(Decode(s.file), name), Name(Decode(s.file).connections[name].password), out)
      else t == s && out == Failed(false)
    case AddDestination(name, dst) =>
      var changed := Loads(s.file) && t.file == Encode(WithDestination(Decode(s.file), name, dst));
      t.entries == s.entries && (changed || t.file == s.file) && (out.Done? ==> changed) && (out.Failed? ==> t == s)
    case RemoveDestination(name) =>
      if Loads(s.file) && name in Decode(s.file).destinations then
        Removed(s, t, WithoutDestination(Decode(s.file), name),
                DestinationNames(Decode(s.file).destinations[name]), out)
      else t == s && out == Failed(false)
  }

  predicate Reference(r: Ref) {
    (r.keyring == "") != (r.env == "")
  }

  /** What the command line makes of its arguments: one kind of reference, and for
      destinations the environment only. */
  predicate WellFormed(c: Command) {
    match c
    case AddConnection(_, conn, _) => Reference(conn.password)
    case AddDestination(_, dst) =>
      forall r :: r in [dst.accessKey, dst.secretKey, dst.sessionToken] && r.Some? ==>
        Reference(r.value) && r.value.env != ""
    case _ => true
  }

  /** A reference still resolves once written and loaded again: what is left of its name
      without the white space behind it is not empty and, in the keychain, either the name
      the secret is stored under or another entry. */
  predicate Lands(r: Ref, entries: map<string, string>) {
    if r.keyring != "" then
      var k := TrimRight(r.keyring);
      k != "" && (k == r.keyring || k in entries)
    else TrimRight(r.env) != ""
  }

  predicate OptionLands(r: Option<Ref>) {
    r.Some? ==> TrimRight(r.value.env) != ""
  }

  /** What can be told of a command before it runs: the references it introduces land. */
  predicate Harmless(c: Command, s: State) {
    match c
    case AddConnection(_, conn, _) => Lands(conn.password, s.entries)
    case AddDestination(_, dst) =>
      OptionLands(dst.accessKey) && OptionLands(dst.secretKey) && OptionLands(dst.sessionToken)
    case _ => true
  }

  lemma NamesOfConnection(cfg: Config, n: string)
    requires n in cfg.connections
    ensures Name(cfg.connections[n].password) <= Names(cfg)
  {
  }

  /** Changing one record changes the names in use by its own at most. */
  lemma NamesWith(cfg: Config, name: string, conn: Connection, dst: Destination)
    ensures Names(WithConnection(cfg, name, conn)) <= Names(cfg) + Name(conn.password)
    ensures Names(WithDestination(cfg, name, dst)) <= Names(cfg) + DestinationNames(dst)
    ensures Names(WithoutConnection(cfg, name)) <= Names(cfg)
    ensures Names(WithoutDestination(cfg, name)) <= Names(cfg)
  {
    hide Name, DestinationNames;
  }

  lemma TidyWith(cfg: Config, name: string, conn: Connection, dst: Destination)
    requires ConfigTidy(cfg)
    ensures Tidy(conn.password) ==> ConfigTidy(WithConnection(cfg, name, conn))
    ensures DestinationTidy(dst) ==> ConfigTidy(WithDestination(cfg, name, dst))
    ensures ConfigTidy(WithoutConnection(cfg, name)) && ConfigTidy(WithoutDestination(cfg, name))
  {
    hide Tidy, DestinationTidy;
  }

  /** The reference a written one reads back as. */
  function Landed(r: Ref): Ref {
    Ref(TrimRight(r.keyring), TrimRight(r.env))
  }

  lemma LandedReadsBack(r: Ref)
    requires Reference(r)
    ensures ParseRef(RefText(r)) == NonEmpty(Landed(r))
    ensures !Empty(Landed(r)) ==> Tidy(Landed(r)) && Reference(Landed(r))
  {
    TrimRightEnd(r.keyring);
    TrimRightEnd(r.env);
    if r.keyring != "" {
      ParseOfHead(KEYRING, r.keyring);
    } else {
      ParseOfHead(ENV, r.env);
    }
  }

  lemma EncodeWith(cfg: Config, name: string, conn: Connection, dst: Destination)
    ensures var f := Encode(cfg);
            && Encode(WithConnection(cfg, name, conn))
               == f.(connections := f.connections[name := ConnectionText(conn.info, RefText(conn.password))])
            && Encode(WithDestination(cfg, name, dst))
               == f.(destinations := f.destinations[name := DestinationTextOf(dst)])
  {
    hide RefText, DestinationTextOf;
  }

  /** One connection of a file that loads is replaced. */
  lemma DecodeConnection(f: File, name: string, text: ConnectionText)
    requires Loads(f)
    ensures var g := f.(connections := f.connections[name := text]);
            && (Loads(g) <==> ParseRef(text.password).Some?)
            && (Loads(g) ==>
                Decode(g) == WithConnection(Decode(f), name, Connection(text.info, ParseRef(text.password).value)))
  {
    hide ParseRef, DestinationLoads, DestinationOf;
    var g := f.(connections := f.connections[name := text]);
    assert g.connections[name] == text;
    assert forall n :: n in f.connections && n != name ==> g.connections[n] == f.connections[n];
  }

  /** One destination of a file that loads is replaced. */
  lemma DecodeDestination(f: File, name: string, text: DestinationText)
    requires Loads(f)
    ensures var g := f.(destinations := f.destinations[name := text]);
            && (Loads(g) <==> DestinationLoads(text))
            && (Loads(g) ==> Decode(g) == WithDestination(Decode(f), name, DestinationOf(text)))
  {
    hide ParseRef, DestinationLoads, DestinationOf;
    var g := f.(destinations := f.destinations[name := text]);
    assert g.destinations[name] == text;
    assert forall n :: n in f.destinations && n != name ==> g.destinations[n] == f.destinations[n];
  }

  /** A file with an added connection reads back with what its reference landed as, or not. */
  lemma AddedReadsBack(cfg: Config, name: string, conn: Connection)
    requires ConfigTidy(cfg) && Reference(conn.password)
    ensures Loads(Encode(WithConnection(cfg, name, conn))) <==> !Empty(Landed(conn.password))
    ensures !Empty(Landed(conn.password)) ==>
      Decode(Encode(WithConnection(cfg, name, conn)))
      == WithConnection(cfg, name, conn.(password := Landed(conn.password)))
  {
    hide ConfigTidy, Loads, Decode, Encode, WithConnection, ParseRef, RefText, Reference, Landed;
    LandedReadsBack(conn.password);
    ConfigReadsBack(cfg);
    EncodeWith(cfg, name, conn, Destination("", None, None, None));
    DecodeConnection(Encode(cfg), name, ConnectionText(conn.info, RefText(conn.password)));
  }

  /** A file with an added connection resolves exactly if the reference lands. */
  lemma AddedFileResolves(s: State, name: string, conn: Connection, secret: string)
    requires AllResolve(s) && Reference(conn.password)
    ensures AllResolve(State(Encode(WithConnection(Decode(s.file), name, conn)),
                             WithSecret(s.entries, conn.password, secret)))
       <==> Lands(conn.password, s.entries)
  {
    hide Loads, Decode, Encode, Names, ConfigTidy, Tidy, WithConnection;
    var cfg, landed := Decode(s.file), conn.(password := Landed(conn.password));
    LoadedIsTidy(s.file);
    AddedReadsBack(cfg, name, conn);
    NamesWith(cfg, name, landed, Destination("", None, None, None));
    AddedName(cfg, name, landed);
  }

  lemma AddedName(cfg: Config, name: string, conn: Connection)
    ensures Name(conn.password) <= Names(WithConnection(cfg, name, conn))
  {
    NamesOfConnection(WithConnection(cfg, name, conn), name);
  }

  lemma AddedKeeps(s: State, t: State, name: string, conn: Connection, secret: string, out: Outcome)
    requires Added(s, t, name, conn, secret, out) && AllResolve(s) && Reference(conn.password)
    ensures AllResolve(t) <==> t.file == s.file || Lands(conn.password, s.entries)
    ensures out.Done? ==> (AllResolve(t) <==> Lands(conn.password, s.entries))
  {
    hide Loads, Decode, Encode, Names, Reference, Lands;
    AddedFileResolves(s, name, conn, secret);
  }

  lemma RemovedKeeps(s: State, t: State, cfg: Config, names: set<string>, out: Outcome)
    requires Removed(s, t, cfg, names, out) && AllResolve(s) && ConfigTidy(cfg) && Names(cfg) <= Names(Decode(s.file))
    ensures AllResolve(t)
  {
    hide Loads, Decode, Encode, Names, ConfigTidy;
    ConfigReadsBack(cfg);
  }

  lemma OptionReadsBackLanded(r: Option<Ref>)
    requires r.Some? ==> Reference(r.value) && r.value.env != ""
    ensures OptionLoads(OptionText(r)) <==> OptionLands(r)
    ensures OptionLands(r) ==> OptionName(OptionRef(OptionText(r))) == {}
  {
    if r.Some? {
      LandedReadsBack(r.value);
    }
  }

  lemma DestinationReadsBackLanded(c: Command)
    requires WellFormed(c) && c.AddDestination?
    ensures var d := DestinationTextOf(c.dst);
            && (DestinationLoads(d) <==>
                OptionLands(c.dst.accessKey) && OptionLands(c.dst.secretKey) && OptionLands(c.dst.sessionToken))
            && (DestinationLoads(d) ==> DestinationNames(DestinationOf(d)) == {})
  {
    hide OptionLands, OptionLoads, OptionName, OptionRef, OptionText;
    var refs := [c.dst.accessKey, c.dst.secretKey, c.dst.sessionToken];
    assert refs[0] in refs && refs[1] in refs && refs[2] in refs;
    OptionReadsBackLanded(c.dst.accessKey);
    OptionReadsBackLanded(c.dst.secretKey);
    OptionReadsBackLanded(c.dst.sessionToken);
  }

  lemma AddedDestinationReadsBack(cfg: Config, name: string, dst: Destination)
    requires ConfigTidy(cfg)
    ensures var file := Encode(WithDestination(cfg, name, dst));
            && (Loads(file) <==> DestinationLoads(DestinationTextOf(dst)))
            && (Loads(file) ==> Decode(file) == WithDestination(cfg, name, DestinationOf(DestinationTextOf(dst))))
  {
    hide ConfigTidy, Loads, Decode, Encode, WithDestination, DestinationLoads, DestinationTextOf, DestinationOf;
    ConfigReadsBack(cfg);
    EncodeWith(cfg, name, Connection("", Ref("", "x")), dst);
    DecodeDestination(Encode(cfg), name, DestinationTextOf(dst));
  }

  lemma AddedDestinationKeeps(c: Command, s: State, t: State, out: Outcome)
    requires c.AddDestination? && Effect(c, s, t, out) && WellFormed(c) && AllResolve(s)
    ensures AllResolve(t) <==> t.file == s.file || Harmless(c, s)
    ensures out.Done? ==> (AllResolve(t) <==> Harmless(c, s))
  {
    hide Loads, Decode, Encode, Names, WellFormed, DestinationLoads, DestinationTextOf, DestinationOf, WithDestination,
      OptionLands;
    var cfg, landed := Decode(s.file), DestinationOf(DestinationTextOf(c.dst));
    LoadedIsTidy(s.file);
    AddedDestinationReadsBack(cfg, c.name, c.dst);
    DestinationReadsBackLanded(c);
    NamesWith(cfg, c.name, Connection("", Ref("", "x")), landed);
  }

  /** Whatever fails and wherever it dies, a command leaves every reference resolving exactly
      if it leaves the file alone or every reference it introduces lands. */
  lemma CommandKeeps(c: Command, s: State, t: State, out: Outcome)
    requires Effect(c, s, t, out) && WellFormed(c) && AllResolve(s)
    ensures AllResolve(t) <==> t.file == s.file || Harmless(c, s)
    ensures out.Done? ==> (AllResolve(t) <==> Harmless(c, s))
  {
    hide Loads, Decode, Encode, Names, ConfigTidy, Added, Removed, Lands, OptionLands;
    var cfg := Decode(s.file);
    var none := Connection("", Ref("", "x"));
    var empty := Destination("", None, None, None);
    LoadedIsTidy(s.file);
    TidyWith(cfg, c.name, none, empty);
    NamesWith(cfg, c.name, none, empty);
    match c
    case AddConnection(name, conn, secret) => AddedKeeps(s, t, name, conn, secret, out);
    case RemoveConnection(name) =>
      if name in cfg.connections {
        RemovedKeeps(s, t, WithoutConnection(cfg, name), Name(cfg.connections[name].password), out);
      }
    case AddDestination(_, _) => AddedDestinationKeeps(c, s, t, out);
    case RemoveDestination(name) =>
      if name in cfg.destinations {
        RemovedKeeps(s, t, WithoutDestination(cfg, name), DestinationNames(cfg.destinations[name]), out);
      }
  }

  /** Reference by reference: what resolved before a command and is still in the file
      resolves after it, whatever else in the file does not, and whatever the names are. */
  lemma ReferenceKept(c: Command, s: State, t: State, out: Outcome, k: string)
    requires Effect(c, s, t, out) && Loads(s.file) && Loads(t.file)
    requires k in s.entries && k in Names(Decode(t.file))
    ensures k in t.entries
  {
    hide Loads, Decode, Encode, Names, ConfigTidy, Tidy;
    var cfg := Decode(s.file);
    LoadedIsTidy(s.file);
    TidyWith(cfg, c.name, Connection("", Ref("", "x")), Destination("", None, None, None));
    if c.RemoveConnection? && c.name in cfg.connections {
      ConfigReadsBack(WithoutConnection(cfg, c.name));
    } else if c.RemoveDestination? && c.name in cfg.destinations {
      ConfigReadsBack(WithoutDestination(cfg, c.name));
    }
  }

  /** The states commands run one at a time go through. */
  ghost predicate Runs(commands: seq<Command>, outs: seq<Outcome>, states: seq<State>) {
    && |states| == |commands| + 1 && |outs| == |commands|
    && forall i :: 0 <= i < |commands| ==> Effect(commands[i], states[i], states[i + 1], outs[i])
  }

  /** A command that left the file alone, or whose references landed. */
  predicate StepHarmless(c: Command, s: State, t: State) {
    t.file == s.file || Harmless(c, s)
  }

  /** Over any number of commands, failed and crashed ones included, every reference of the
      file resolves all the way exactly if every command that changed the file was harmless
      where it ran. */
  lemma {:induction false} RunsKeep(commands: seq<Command>, outs: seq<Outcome>, states: seq<State>)
    requires Runs(commands, outs, states) && AllResolve(states[0])
    requires forall c :: c in commands ==> WellFormed(c)
    ensures (forall i :: 0 <= i <= |commands| ==> AllResolve(states[i]))
       <==> (forall i :: 0 <= i < |commands| ==> StepHarmless(commands[i], states[i], states[i + 1]))
  {
    hide AllResolve, Effect, WellFormed, Harmless;
    var n := |commands|;
    if n == 0 {
    } else {
      var front := commands[..n - 1];
      RunsKeep(front, outs[..n - 1], states[..n]);
      RunsFront(commands, states);
      if AllResolve(states[n - 1]) {
        CommandKeeps(commands[n - 1], states[n - 1], states[n], outs[n - 1]);
      }
    }
  }

  /** The front of a run speaks of the same states. */
  lemma RunsFront(commands: seq<Command>, states: seq<State>)
    requires commands != [] && |states| == |commands| + 1
    ensures var n := |commands|;
            && ((forall i :: 0 <= i <= n - 1 ==> AllResolve(states[..n][i])) <==>
                (forall i :: 0 <= i < n ==> AllResolve(states[i])))
            && ((forall i :: 0 <= i < n - 1 ==> StepHarmless(commands[..n - 1][i], states[..n][i], states[..n][i + 1]))
                <==> (forall i :: 0 <= i < n - 1 ==> StepHarmless(commands[i], states[i], states[i + 1])))
  {
    hide AllResolve, StepHarmless;
    var n := |commands|;
    assert forall i :: 0 <= i < n ==> states[..n][i] == states[i];
    assert forall i :: 0 <= i < n - 1 ==> commands[..n - 1][i] == commands[i];
  }

  /** After an added connection the file loads exactly if the name is more than white space;
      a blank name makes every later command fail. */
  lemma BlankNamesBreak(s: State, t: State, name: string, conn: Connection, secret: string)
    requires Added(s, t, name, conn, secret, Done) && Reference(conn.password)
    ensures Loads(t.file) <==> TrimRight(conn.password.keyring) != "" || TrimRight(conn.password.env) != ""
  {
    hide Decode, Encode, Loads, WithConnection, TrimRight, ConfigTidy;
    LoadedIsTidy(s.file);
    AddedReadsBack(Decode(s.file), name, conn);
  }

  /** The added reference is read back as given, and so names the stored secret, exactly if
      it does not end in white space. */
  lemma AddedResolves(s: State, t: State, name: string, conn: Connection, secret: string)
    requires Added(s, t, name, conn, secret, Done) && Reference(conn.password) && Loads(t.file)
    ensures name in Decode(t.file).connections
    ensures Decode(t.file).connections[name].password == Landed(conn.password)
    ensures Landed(conn.password) == conn.password <==> Tidy(conn.password)
    ensures conn.password.keyring != "" ==>
              conn.password.keyring in t.entries && t.entries[conn.password.keyring] == secret
  {
    hide Decode, Encode, Loads, TrimRight, ConfigTidy, ParseRef, RefText;
    LoadedIsTidy(s.file);
    AddedReadsBack(Decode(s.file), name, conn);
    LandedIsTidy(conn.password);
  }

  lemma LandedIsTidy(r: Ref)
    requires Reference(r)
    ensures Landed(r) == r <==> Tidy(r)
  {
    TrimRightEnd(r.keyring);
    TrimRightEnd(r.env);
  }

  // ------------------------------------------------- names that go wrong

  /** The command line with one connection added to an empty file. */
  function FirstAdd(ref: Ref): State {
    State(Encode(Config(map["db" := Connection("dsn", ref)], map[])), WithSecret(map[], ref, "secret"))
  }

  lemma FirstAddIsAdded(ref: Ref)
    ensures Added(State(File(map[], map[]), map[]), FirstAdd(ref), "db", Connection("dsn", ref), "secret", Done)
  {
    var none := File(map[], map[]);
    assert Decode(none) == Config(map[], map[]);
    assert WithConnection(Config(map[], map[]), "db", Connection("dsn", ref))
        == Config(map["db" := Connection("dsn", ref)], map[]);
  }

  /** A keyring name of one character is accepted whatever the character; if it is one of
      Unicode's white space, and only then, the file cannot be loaded any more. */
  lemma BlankNameExample(c: char)
    ensures var ref := Ref([c], "");
            && Added(State(File(map[], map[]), map[]), FirstAdd(ref), "db", Connection("dsn", ref), "secret", Done)
            && (Loads(FirstAdd(ref).file) <==>
                c as int !in {0x09, 0x0A, 0x0B, 0x0C, 0x0D, 0x20, 0x85, 0xA0, 0x1680, 0x2000, 0x2001, 0x2002, 0x2003,
                              0x2004, 0x2005, 0x2006, 0x2007, 0x2008, 0x2009, 0x200A, 0x2028, 0x2029, 0x202F, 0x205F,
                              0x3000})
  {
    hide Loads;
    var ref := Ref([c], "");
    FirstAddIsAdded(ref);
    assert [c][..0] == "" && (TrimRight([c]) == "" <==> Space(c));
    BlankNamesBreak(State(File(map[], map[]), map[]), FirstAdd(ref), "db", Connection("dsn", ref), "secret");
  }

  /** A keyring name with a space behind it is stored with the space and read back without:
      the file loads, and its only reference does not resolve. */
  lemma TrailingSpaceExample()
    ensures var ref := Ref("pw ", "");
            && Added(State(File(map[], map[]), map[]), FirstAdd(ref), "db", Connection("dsn", ref), "secret", Done)
            && Loads(FirstAdd(ref).file) && !AllResolve(FirstAdd(ref))
  {
    hide Loads, Decode, Encode, Names;
    var ref := Ref("pw ", "");
    var before := State(File(map[], map[]), map[]);
    FirstAddIsAdded(ref);
    assert "pw "[..2] == "pw" && TrimRight("pw ") == "pw";
    EmptyResolves(before);
    AddedKeeps(before, FirstAdd(ref), "db", Connection("dsn", ref), "secret", Done);
    BlankNamesBreak(before, FirstAdd(ref), "db", Connection("dsn", ref), "secret");
  }

  lemma EmptyResolves(s: State)
    requires s.file == File(map[], map[])
    ensures AllResolve(s)
  {
  }
}
