/** Reading the flags of the relay module. They come as a Go map, so in any order; which maps are
    accepted, and with what configuration, does not depend on it. */
module RelayConfig {

  import opened Wrappers
  import opened Slots
  import opened RelayAuction
  import U256

  /** The flags by name; any other name is an error. */
  datatype Flag =
    | LoggerLevel | LoggerFormat | RelayEntries | RelayCheck | SkipRelaySignatureCheck | MinBid
    | Mainnet | Sepolia | Goerli | GenesisForkVersion | GenesisTime | GenesisValidatorsRoot
    | RequestTimeoutMs | RequestMaxRetries
    | Unknown(name: string)

  const INT64: int := 0x1_0000_0000_0000_0000

  type int64 = x: int | -0x8000_0000_0000_0000 <= x < 0x8000_0000_0000_0000

  /** What is parsed from a relay's address. */
  datatype RelayUrl = RelayUrl(publicKey: string, url: string)

  /** The domain of a relay entry that has not been given one. */
  const ZERO_DOMAIN := "0x00000000" + "00000000000000000000000000000000000000000000000000000000"

  /** `NewRelayEntry` on each address: it sets the key and the address, not the domain. */
  function NewRelayEntries(parsed: seq<RelayUrl>): (s: seq<RelayEntry>)
    ensures |s| == |parsed| && forall r :: r in s ==> r.signingDomain == ZERO_DOMAIN
    ensures forall i :: 0 <= i < |parsed| ==> s[i].publicKey == parsed[i].publicKey && s[i].url == parsed[i].url
  {
    seq(|parsed|, i requires 0 <= i < |parsed| => RelayEntry(parsed[i].publicKey, ZERO_DOMAIN, parsed[i].url))
  }

  /** The library parsers the flags go through. */
  datatype Parsers = Parsers(
    logLevel: string -> Option<nat>,
    relays: string -> Option<seq<RelayUrl>>,   // the comma-separated list, None when an entry is bad
    decimal: string -> Option<int>,
    int64: string -> Option<int64>)

  datatype Config = Config(
    logLevel: nat,
    logFormat: string,
    relays: seq<RelayEntry>,
    relayCheck: bool,
    signatureCheck: bool,
    minBid: nat,
    forkVersion: string,
    genesisTime: Slot,
    validatorsRoot: string,
    timeoutMs: int64,
    clientTimeout: int64,
    maxRetries: int64)

  /** Conversion of a signed to an unsigned 64-bit integer. */
  function ToUint64(x: int64): Slot {
    x % INT64
  }

  /** Multiplication of signed 64-bit integers wraps around: milliseconds as nanoseconds. */
  function Nanoseconds(ms: int64): int64 {
    var n := (ms * 1_000_000) % INT64;
    if n < INT64 / 2 then n else n - INT64
  }

  predicate IsNetwork(f: Flag) {
    f.Mainnet? || f.Sepolia? || f.Goerli?
  }

  function NetworkForkVersion(f: Flag): string
    requires IsNetwork(f)
  {
    match f
    case Mainnet => "0x00000000"
    case Sepolia => "0x90000069"
    case Goerli => "0x00001020"
  }

  function NetworkGenesisTime(f: Flag): Slot
    requires IsNetwork(f)
  {
    match f
    case Mainnet => 1606824023
    case Sepolia => 1655733600
    case Goerli => 1614588812
  }

  // ---- what a map of flags means ----

  /** A decimal that `FromBig` takes. */
  function MinBidOf(p: Parsers, value: string): Option<nat> {
    var n := p.decimal(value);
    if n.Some? && 0 <= n.value < U256.Pow2(U256.BITS) then Some(n.value) else None
  }

  predicate ValidValue(p: Parsers, f: Flag, value: string) {
    match f
    case LoggerLevel => p.logLevel(value).Some?
    case LoggerFormat => value == "json" || value == "text"
    case RelayEntries => p.relays(value).Some?
    case MinBid => p.decimal(value).Some? && 0 <= p.decimal(value).value < U256.Pow2(256)
    case GenesisTime => p.int64(value).Some?
    case RequestTimeoutMs => p.int64(value).Some?
    case RequestMaxRetries => p.int64(value).Some?
    case Unknown(_) => false
    case _ => true
  }

  /** The flags that choose a network: at most one of them may be given. */
  const CHOICES: set<Flag> := {Mainnet, Sepolia, Goerli, GenesisForkVersion}

  ghost predicate Exclusive(given: set<Flag>) {
    forall f, g :: f in given * CHOICES && g in given * CHOICES ==> f == g
  }

  ghost predicate Accepts(p: Parsers, flags: map<Flag, string>) {
    && (forall f :: f in flags ==> ValidValue(p, f, flags[f]))
    && Exclusive(flags.Keys)
    && (GenesisTime in flags ==> GenesisForkVersion in flags)
  }

  function Or<T>(parsed: Option<T>, default: T): T {
    if parsed.Some? then parsed.value else default
  }

  function AppliedForkVersion(c: Config, flags: map<Flag, string>, given: set<Flag>): string
    requires given <= flags.Keys
  {
    if Mainnet in given then NetworkForkVersion(Mainnet)
    else if Sepolia in given then NetworkForkVersion(Sepolia)
    else if Goerli in given then NetworkForkVersion(Goerli)
    else if GenesisForkVersion in given then flags[GenesisForkVersion] else c.forkVersion
  }

  function AppliedGenesisTime(p: Parsers, c: Config, flags: map<Flag, string>, given: set<Flag>): Slot
    requires given <= flags.Keys
  {
    if Mainnet in given then NetworkGenesisTime(Mainnet)
    else if Sepolia in given then NetworkGenesisTime(Sepolia)
    else if Goerli in given then NetworkGenesisTime(Goerli)
    else if GenesisTime in given then ToUint64(Or(p.int64(flags[GenesisTime]), 0)) else c.genesisTime
  }

  /** The configuration after the flags in `given`, as a function of the map. */
  function Applied(p: Parsers, c: Config, flags: map<Flag, string>, given: set<Flag>): Config
    requires given <= flags.Keys
  {
    Config(
      if LoggerLevel in given then Or(p.logLevel(flags[LoggerLevel]), c.logLevel) else c.logLevel,
      if LoggerFormat in given then flags[LoggerFormat] else c.logFormat,
      if RelayEntries in given then c.relays + NewRelayEntries(Or(p.relays(flags[RelayEntries]), [])) else c.relays,
      RelayCheck in given || c.relayCheck,
      SkipRelaySignatureCheck !in given && c.signatureCheck,
      if MinBid in given then Or(MinBidOf(p, flags[MinBid]), c.minBid) else c.minBid,
      AppliedForkVersion(c, flags, given),
      AppliedGenesisTime(p, c, flags, given),
      if GenesisValidatorsRoot in given then flags[GenesisValidatorsRoot] else c.validatorsRoot,
      if RequestTimeoutMs in given then Or(p.int64(flags[RequestTimeoutMs]), 0) else c.timeoutMs,
      if RequestTimeoutMs in given then Nanoseconds(Or(p.int64(flags[RequestTimeoutMs]), 0)) else c.clientTimeout,
      if RequestMaxRetries in given then Or(p.int64(flags[RequestMaxRetries]), 0) else c.maxRetries)
  }

  /** What each flag says, in plain terms. Whatever is not given stays as it was. */
  ghost predicate Reads(p: Parsers, flags: map<Flag, string>, c: Config, c': Config) {
    && (if LoggerLevel in flags then p.logLevel(flags[LoggerLevel]) == Some(c'.logLevel) else c'.logLevel == c.logLevel)
    && c'.logFormat == (if LoggerFormat in flags then flags[LoggerFormat] else c.logFormat)
    && (if RelayEntries in flags then
          && p.relays(flags[RelayEntries]).Some?
          && AddsRelays(c.relays, p.relays(flags[RelayEntries]).value, c'.relays)
        else c'.relays == c.relays)
    && c'.relayCheck == (c.relayCheck || RelayCheck in flags)
    && c'.signatureCheck == (c.signatureCheck && SkipRelaySignatureCheck !in flags)
    && (if MinBid in flags then p.decimal(flags[MinBid]) == Some(c'.minBid) else c'.minBid == c.minBid)
    && ReadsNetwork(p, flags, c, c')
    && c'.validatorsRoot == (if GenesisValidatorsRoot in flags then flags[GenesisValidatorsRoot] else c.validatorsRoot)
    && (if RequestTimeoutMs in flags then
          p.int64(flags[RequestTimeoutMs]) == Some(c'.timeoutMs) && InNanoseconds(c'.timeoutMs, c'.clientTimeout)
        else c'.timeoutMs == c.timeoutMs && c'.clientTimeout == c.clientTimeout)
    && (if RequestMaxRetries in flags then p.int64(flags[RequestMaxRetries]) == Some(c'.maxRetries) else c'.maxRetries == c.maxRetries)
  }

  /** The relays of the flag come after those there are, with their own keys and addresses. */
  ghost predicate AddsRelays(before: seq<RelayEntry>, parsed: seq<RelayUrl>, after: seq<RelayEntry>) {
    && |after| == |before| + |parsed| && before <= after
    && forall i :: 0 <= i < |parsed| ==>
         after[|before| + i].publicKey == parsed[i].publicKey && after[|before| + i].url == parsed[i].url
  }

  ghost predicate ReadsNetwork(p: Parsers, flags: map<Flag, string>, c: Config, c': Config) {
    if Mainnet in flags then c'.forkVersion == "0x00000000" && c'.genesisTime == 1606824023
    else if Sepolia in flags then c'.forkVersion == "0x90000069" && c'.genesisTime == 1655733600
    else if Goerli in flags then c'.forkVersion == "0x00001020" && c'.genesisTime == 1614588812
    else
      && c'.forkVersion == (if GenesisForkVersion in flags then flags[GenesisForkVersion] else c.forkVersion)
      && if GenesisTime in flags then
           p.int64(flags[GenesisTime]).Some? && AsUnsigned(p.int64(flags[GenesisTime]).value, c'.genesisTime)
         else c'.genesisTime == c.genesisTime
  }

  /** A negative number becomes its two's complement. */
  predicate AsUnsigned(x: int64, u: Slot) {
    u == if x >= 0 then x else 0x1_0000_0000_0000_0000 + x
  }

  /** Milliseconds in nanoseconds: exactly, as long as they fit into 64 bits, and modulo 2^64 always. */
  predicate InNanoseconds(ms: int64, ns: int64) {
    && (ms * 1_000_000 - ns) % 0x1_0000_0000_0000_0000 == 0
    && (-9_223_372_036_854 <= ms <= 9_223_372_036_854 ==> ns == ms * 1_000_000)
  }

  lemma NanosecondsAre(ms: int64)
    ensures InNanoseconds(ms, Nanoseconds(ms))
    ensures AsUnsigned(ms, ToUint64(ms))
  {
    var n := ms * 1_000_000;
    assert n == n / INT64 * INT64 + n % INT64;
    var k := n / INT64;
    assert n - Nanoseconds(ms) == k * INT64 || n - Nanoseconds(ms) == (k + 1) * INT64;
    Multiple(k);
    Multiple(k + 1);
  }

  lemma Multiple(k: int)
    ensures (k * INT64) % INT64 == 0
  {
  }

  lemma AppliedReads(p: Parsers, c: Config, flags: map<Flag, string>)
    requires Accepts(p, flags)
    ensures Reads(p, flags, c, Applied(p, c, flags, flags.Keys))
  {
    hide Nanoseconds, ToUint64, InNanoseconds, AsUnsigned, Exclusive, AppliedForkVersion, AppliedGenesisTime, ReadsNetwork;
    assert forall f :: f in flags ==> ValidValue(p, f, flags[f]);
    NetworkIsRead(p, c, flags);
    if RequestTimeoutMs in flags {
      NanosecondsAre(p.int64(flags[RequestTimeoutMs]).value);
    }
  }

  lemma NetworkIsRead(p: Parsers, c: Config, flags: map<Flag, string>)
    requires Accepts(p, flags)
    ensures ReadsNetwork(p, flags, c, Applied(p, c, flags, flags.Keys))
  {
    hide Nanoseconds, ToUint64, InNanoseconds, AsUnsigned, Exclusive;
    if GenesisTime in flags {
      assert ValidValue(p, GenesisTime, flags[GenesisTime]);
      NanosecondsAre(p.int64(flags[GenesisTime]).value);
    }
  }

  // ---- reading one flag after the other ----

  /** `forkVersionFlagNameSet`: empty, the name of a network flag, or "custom" for a fork version. */
  datatype Chosen = NoChoice | Network(flag: Flag) | Custom

  /** The configuration so far, with the local variables of the loop. */
  datatype Scan = Scan(config: Config, chosen: Chosen, customTime: bool, customFork: bool)

  function ReadFlag(p: Parsers, s: Scan, f: Flag, value: string): Option<Scan> {
    var c := s.config;
    match f
    case LoggerLevel => if p.logLevel(value).None? then None else Some(s.(config := c.(logLevel := p.logLevel(value).value)))
    case LoggerFormat =>
      if value == "json" || value == "text" then Some(s.(config := c.(logFormat := value))) else None
    case RelayEntries =>
      if p.relays(value).None? then None else Some(s.(config := c.(relays := c.relays + NewRelayEntries(p.relays(value).value))))
    case RelayCheck => Some(s.(config := c.(relayCheck := true)))
    case SkipRelaySignatureCheck => Some(s.(config := c.(signatureCheck := false)))
    case MinBid =>
      if MinBidOf(p, value).None? then None else Some(s.(config := c.(minBid := MinBidOf(p, value).value)))
    case Mainnet => ReadNetwork(s, f)
    case Sepolia => ReadNetwork(s, f)
    case Goerli => ReadNetwork(s, f)
    case GenesisForkVersion =>
      if !s.chosen.NoChoice? && !s.chosen.Custom? then None
      else Some(Scan(c.(forkVersion := value), Custom, s.customTime, true))
    case GenesisTime =>
      if !s.chosen.NoChoice? && !s.chosen.Custom? then None
      else if p.int64(value).None? then None
      else Some(s.(config := c.(genesisTime := ToUint64(p.int64(value).value)), customTime := true))
    case GenesisValidatorsRoot => Some(s.(config := c.(validatorsRoot := value)))
    case RequestTimeoutMs =>
      var ms := p.int64(value);
      if ms.None? then None
      else Some(s.(config := c.(timeoutMs := ms.value, clientTimeout := Nanoseconds(ms.value))))
    case RequestMaxRetries =>
      if p.int64(value).None? then None else Some(s.(config := c.(maxRetries := p.int64(value).value)))
    case Unknown(_) => None
  }

  function ReadNetwork(s: Scan, f: Flag): Option<Scan>
    requires IsNetwork(f)
  {
    if !s.chosen.NoChoice? || s.customFork then None
    else Some(s.(config := s.config.(forkVersion := NetworkForkVersion(f), genesisTime := NetworkGenesisTime(f)),
                 chosen := Network(f)))
  }

  /** What the local variables say about the flags read so far, in whatever order. */
  ghost predicate ScanOk(p: Parsers, c: Config, flags: map<Flag, string>, done: set<Flag>, s: Scan) {
    && done <= flags.Keys
    && (forall f :: f in done ==> ValidValue(p, f, flags[f]))
    && s.config == Applied(p, c, flags, done)
    && (s.customTime <==> GenesisTime in done)
    && (s.customFork <==> GenesisForkVersion in done)
    && ChoiceOk(done, s.chosen)
  }

  ghost predicate ChoiceOk(done: set<Flag>, chosen: Chosen) {
    match chosen
    case NoChoice => done * CHOICES == {}
    case Network(f) => IsNetwork(f) && done * CHOICES == {f}
    case Custom => done * CHOICES == {GenesisForkVersion}
  }

  lemma ConfigStep(p: Parsers, c: Config, flags: map<Flag, string>, done: set<Flag>, s: Scan, f: Flag)
    requires done <= flags.Keys && f in flags && f !in done
    requires s.config == Applied(p, c, flags, done)
    requires f in CHOICES || f.GenesisTime? ==> Mainnet !in done && Sepolia !in done && Goerli !in done
    requires IsNetwork(f) ==> GenesisForkVersion !in done
    ensures var r := ReadFlag(p, s, f, flags[f]);
      r.Some? ==> r.value.config == Applied(p, c, flags, done + {f})
  {
    NetworkStep(p, c, flags, done, s, f);
    RelayStep(p, c, flags, done, s, f);
    RequestStep(p, c, flags, done, s, f);
    hide AppliedForkVersion, AppliedGenesisTime, ReadFlag;
  }

  lemma RelayStep(p: Parsers, c: Config, flags: map<Flag, string>, done: set<Flag>, s: Scan, f: Flag)
    requires done <= flags.Keys && f in flags && f !in done
    requires s.config == Applied(p, c, flags, done)
    ensures var r, next := ReadFlag(p, s, f, flags[f]), Applied(p, c, flags, done + {f});
      r.Some? ==>
        && r.value.config.relays == next.relays
        && r.value.config.relayCheck == next.relayCheck
        && r.value.config.signatureCheck == next.signatureCheck
        && r.value.config.minBid == next.minBid
        && r.value.config.validatorsRoot == next.validatorsRoot
  {
    hide AppliedForkVersion, AppliedGenesisTime, NetworkForkVersion, NetworkGenesisTime, Nanoseconds, ToUint64, MinBidOf;
  }

  lemma RequestStep(p: Parsers, c: Config, flags: map<Flag, string>, done: set<Flag>, s: Scan, f: Flag)
    requires done <= flags.Keys && f in flags && f !in done
    requires s.config == Applied(p, c, flags, done)
    ensures var r, next := ReadFlag(p, s, f, flags[f]), Applied(p, c, flags, done + {f});
      r.Some? ==>
        && r.value.config.logLevel == next.logLevel
        && r.value.config.logFormat == next.logFormat
        && r.value.config.timeoutMs == next.timeoutMs
        && r.value.config.clientTimeout == next.clientTimeout
        && r.value.config.maxRetries == next.maxRetries
  {
    hide AppliedForkVersion, AppliedGenesisTime, NetworkForkVersion, NetworkGenesisTime, Nanoseconds, ToUint64, MinBidOf;
  }

  lemma NetworkStep(p: Parsers, c: Config, flags: map<Flag, string>, done: set<Flag>, s: Scan, f: Flag)
    requires done <= flags.Keys && f in flags && f !in done
    requires s.config.forkVersion == AppliedForkVersion(c, flags, done)
    requires s.config.genesisTime == AppliedGenesisTime(p, c, flags, done)
    requires f in CHOICES || f.GenesisTime? ==> Mainnet !in done && Sepolia !in done && Goerli !in done
    requires IsNetwork(f) ==> GenesisForkVersion !in done
    ensures var r := ReadFlag(p, s, f, flags[f]);
      r.Some? ==>
        && r.value.config.forkVersion == AppliedForkVersion(c, flags, done + {f})
        && r.value.config.genesisTime == AppliedGenesisTime(p, c, flags, done + {f})
  {
  }

  lemma ChoiceStep(p: Parsers, s: Scan, done: set<Flag>, f: Flag, value: string)
    requires ChoiceOk(done, s.chosen) && f !in done && ReadFlag(p, s, f, value).Some?
    ensures ChoiceOk(done + {f}, ReadFlag(p, s, f, value).value.chosen)
    ensures f in CHOICES || f.GenesisTime? ==> Mainnet !in done && Sepolia !in done && Goerli !in done
    ensures IsNetwork(f) ==> GenesisForkVersion !in done
  {
    assert forall g :: g in done && g in CHOICES ==> g in done * CHOICES;
    if f in CHOICES {
      assert (done + {f}) * CHOICES == done * CHOICES + {f};
    } else {
      assert (done + {f}) * CHOICES == done * CHOICES;
    }
  }

  /** A refused flag is invalid, or there is a conflicting choice before it. */
  lemma Refused(p: Parsers, s: Scan, flags: map<Flag, string>, done: set<Flag>, f: Flag)
    requires done <= flags.Keys && ChoiceOk(done, s.chosen) && f in flags && f !in done
    requires s.customFork ==> GenesisForkVersion in done
    requires ReadFlag(p, s, f, flags[f]).None? && ValidValue(p, f, flags[f])
    ensures Exclusive(flags.Keys) && (GenesisTime in flags ==> GenesisForkVersion in flags) ==> false
  {
    var g := if s.chosen.Network? then s.chosen.flag else GenesisForkVersion;
    assert g in done * CHOICES;
    if f.GenesisTime? && GenesisForkVersion in flags {
      assert GenesisForkVersion in flags.Keys * CHOICES && g in flags.Keys * CHOICES;
    } else if f in CHOICES {
      assert f in flags.Keys * CHOICES && g in flags.Keys * CHOICES;
    }
  }

  /** Reading one more flag: an error means that the map as a whole is not acceptable. */
  lemma FlagStep(p: Parsers, c: Config, flags: map<Flag, string>, done: set<Flag>, s: Scan, f: Flag)
    requires ScanOk(p, c, flags, done, s) && f in flags && f !in done
    ensures var r := ReadFlag(p, s, f, flags[f]);
      if r.Some? then ScanOk(p, c, flags, done + {f}, r.value) else !Accepts(p, flags)
  {
    hide Applied, ChoiceOk, Exclusive;
    var r := ReadFlag(p, s, f, flags[f]);
    if r.Some? {
      ChoiceStep(p, s, done, f, flags[f]);
      ConfigStep(p, c, flags, done, s, f);
    } else if ValidValue(p, f, flags[f]) {
      Refused(p, s, flags, done, f);
    }
  }

  /** When all flags are read, only a genesis time without its fork version is left to refuse. */
  lemma AllFlagsRead(p: Parsers, c: Config, flags: map<Flag, string>, s: Scan)
    requires ScanOk(p, c, flags, flags.Keys, s)
    ensures Accepts(p, flags) <==> !(s.customTime && !s.customFork)
  {
    hide Applied, ValidValue;
    assert Exclusive(flags.Keys);
  }

  predicate NoDomainYet(relays: seq<RelayEntry>) {
    forall r :: r in relays ==> r.signingDomain == ZERO_DOMAIN
  }

  lemma DomainsStayZero(p: Parsers, c: Config, flags: map<Flag, string>)
    requires NoDomainYet(c.relays)
    ensures NoDomainYet(Applied(p, c, flags, flags.Keys).relays)
  {
    hide AppliedForkVersion, AppliedGenesisTime, MinBidOf, Nanoseconds, NewRelayEntries;
  }

  /** The application builder's domain type: the first four bytes of every domain computed here. */
  const DOMAIN_TYPE_APP_BUILDER := "0x00000001"

  /** `ComputeDomain`: `forkDataRoot` is the part of the tree root that follows the type, None when the
      fork version is not four bytes. */
  function ComputeDomain(forkDataRoot: (string, string) -> Option<string>, forkVersion: string, validatorsRoot: string): Option<string> {
    var root := forkDataRoot(forkVersion, validatorsRoot);
    if root.None? then None else Some(DOMAIN_TYPE_APP_BUILDER + root.value)
  }

  /** Because of its type a computed domain is never zero, so a relay that was given no domain does not
      have it. */
  lemma NoRelayHasTheDomain(relays: seq<RelayEntry>, forkDataRoot: (string, string) -> Option<string>, forkVersion: string,
                            validatorsRoot: string)
    requires NoDomainYet(relays)
    ensures var domain := ComputeDomain(forkDataRoot, forkVersion, validatorsRoot);
      domain.Some? ==>
        && forkDataRoot(forkVersion, validatorsRoot).Some?
        && domain.value == "0x00000001" + forkDataRoot(forkVersion, validatorsRoot).value
        && forall r :: r in relays ==> r.signingDomain != domain.value
  {
    var domain := ComputeDomain(forkDataRoot, forkVersion, validatorsRoot);
    if domain.Some? {
      assert ZERO_DOMAIN[9] == "0x00000000"[9] == '0';
      assert domain.value[9] == DOMAIN_TYPE_APP_BUILDER[9] == '1';
    }
  }

  /** The least that shows it: one relay, given on the command line. Configuring succeeds, and the relay
      does not have the domain. */
  lemma SigningDomainIsLost(p: Parsers, c: Config, value: string, relay: RelayUrl, forkDataRoot: (string, string) -> Option<string>)
    requires c.relays == [] && c.signatureCheck && p.relays(value) == Some([relay])
    ensures var flags := map[RelayEntries := value];
      var c' := Applied(p, c, flags, flags.Keys);
      var domain := ComputeDomain(forkDataRoot, c'.forkVersion, c'.validatorsRoot);
      && Accepts(p, flags) && c'.signatureCheck && |c'.relays| == 1 && c'.relays[0].publicKey == relay.publicKey
      && (domain.Some? ==> c'.relays[0].signingDomain != domain.value)
  {
    var flags := map[RelayEntries := value];
    DomainsStayZero(p, c, flags);
    var c' := Applied(p, c, flags, flags.Keys);
    hide AppliedForkVersion, AppliedGenesisTime, MinBidOf, Nanoseconds, NoDomainYet, ComputeDomain;
    NoRelayHasTheDomain(c'.relays, forkDataRoot, c'.forkVersion, c'.validatorsRoot);
    assert NewRelayEntries([relay])[0] == RelayEntry(relay.publicKey, ZERO_DOMAIN, relay.url);
    assert flags.Keys * CHOICES == {};
  }

  class Settings {
    var config: Config

    /** For every order in which the map may be iterated: exactly the acceptable maps are accepted,
        and then the configuration is a function of the map, and says what each flag says. */
    method ParseConfigFlags(p: Parsers, flags: map<Flag, string>) returns (ok: bool)
      modifies this
      ensures ok <==> Accepts(p, flags)
      ensures ok ==> config == Applied(p, old(config), flags, flags.Keys)
      ensures ok ==> Reads(p, flags, old(config), config)
    {
      hide ScanOk, Accepts, Applied, ReadFlag, Reads;
      var s := Scan(config, NoChoice, false, false);
      var todo := flags.Keys;
      NothingRead(p, config, flags);
      while todo != {}
        invariant todo <= flags.Keys
        invariant s.config == config
        invariant ScanOk(p, old(config), flags, flags.Keys - todo, s)
        decreases |todo|
      {
        var f :| f in todo;
        FlagStep(p, old(config), flags, flags.Keys - todo, s, f);
        var r := ReadFlag(p, s, f, flags[f]);
        if r.None? {
          return false;
        }
        s := r.value;
        config := s.config;
        assert flags.Keys - (todo - {f}) == flags.Keys - todo + {f};
        todo := todo - {f};
      }
      assert flags.Keys - {} == flags.Keys;
      AllFlagsRead(p, old(config), flags, s);
      ConfigIsApplied(p, old(config), flags, s);
      if Accepts(p, flags) {
        AppliedReads(p, old(config), flags);
      }
      return !(s.customTime && !s.customFork);
    }

    /** `Configure`: the signing domain that it computes is assigned to a copy of each relay entry. So
        the relays keep the domain they were parsed with, and none of them ever has the computed one. */
    method Configure(p: Parsers, flags: map<Flag, string>, forkDataRoot: (string, string) -> Option<string>) returns (ok: bool)
      modifies this
      ensures ok ==> config == Applied(p, old(config), flags, flags.Keys)
      ensures ok <==>
        && Accepts(p, flags)
        && var c := Applied(p, old(config), flags, flags.Keys);
          && (c.signatureCheck ==> ComputeDomain(forkDataRoot, c.forkVersion, c.validatorsRoot).Some?)
          && c.relays != []
      ensures ok && NoDomainYet(old(config).relays) ==> NoDomainYet(config.relays)
      ensures ok && config.signatureCheck && NoDomainYet(old(config).relays) ==>
        var domain := ComputeDomain(forkDataRoot, config.forkVersion, config.validatorsRoot).value;
        forall r :: r in config.relays ==> r.signingDomain != domain
    {
      if NoDomainYet(config.relays) {
        DomainsStayZero(p, config, flags);
      }
      hide Accepts, Applied, Reads, NoDomainYet, ComputeDomain;
      AcceptedValuesAreValid(p, flags);
      ok := ParseConfigFlags(p, flags);
      if !ok {
        return false;
      }
      if config.signatureCheck {
        var domain := ComputeDomain(forkDataRoot, config.forkVersion, config.validatorsRoot);
        if domain.None? {
          return false;
        }
        for i := 0 to |config.relays| {
          var relayEntry := config.relays[i];
          relayEntry := relayEntry.(signingDomain := domain.value);
        }
      }
      if NoDomainYet(config.relays) {
        NoRelayHasTheDomain(config.relays, forkDataRoot, config.forkVersion, config.validatorsRoot);
      }
      return config.relays != [];
    }
  }

  lemma NothingRead(p: Parsers, c: Config, flags: map<Flag, string>)
    ensures ScanOk(p, c, flags, flags.Keys - flags.Keys, Scan(c, NoChoice, false, false))
  {
    assert flags.Keys - flags.Keys == {};
  }

  lemma ConfigIsApplied(p: Parsers, c: Config, flags: map<Flag, string>, s: Scan)
    requires ScanOk(p, c, flags, flags.Keys, s)
    ensures forall f :: f in flags ==> ValidValue(p, f, flags[f])
    ensures s.config == Applied(p, c, flags, flags.Keys)
  {
  }

  lemma AcceptedValuesAreValid(p: Parsers, flags: map<Flag, string>)
    ensures Accepts(p, flags) ==> forall f :: f in flags ==> ValidValue(p, f, flags[f])
  {
  }
}
