/**
  The cache configuration the CacheLib adapter builds in Init
  (cachelib/cachelib_db.cc:21-53 and 71-181).

  Init reads its settings from the benchmark's string properties, converts
  the numeric ones with std::stoi and feeds the results to the engine's
  configuration setters. Here the configuration is a value, BuildConfig
  computes it from the properties, and the conversion is a function of its
  own with the error cases of std::stoi.
*/
module TierConfig {
  import opened Wrappers

  /* ---------- properties and their defaults ---------- */

  type Properties = map<string, string>

  const PROP_CACHE_SIZE_MB := "cachelib.cache_size"
  const PROP_MODE := "cachelib.mode"
  const PROP_PERF_DEVICE := "cachelib.perf_device"
  const PROP_PERF_CAPACITY_GB := "cachelib.perf_cap_gb"
  const PROP_CAP_DEVICE := "cachelib.cap_device"
  const PROP_CAP_CAPACITY_GB := "cachelib.cap_cap_gb"
  const PROP_CACHING_WRITE_MODE := "cachelib.caching_write_mode"
  const PROP_BIGHASH_SIZE_PCT := "cachelib.bighash_size_pct"
  const PROP_READER_THREAD := "cachelib.reader_thread"
  const PROP_WRITER_THREAD := "cachelib.writer_thread"

  const DEFAULT_CACHE_SIZE_MB := "1024"
  const DEFAULT_MODE := "striping"
  const DEFAULT_PERF_DEVICE := "optane0"
  const DEFAULT_PERF_CAPACITY_GB := "100"
  const DEFAULT_CAP_DEVICE := "nvme0"
  const DEFAULT_CAP_CAPACITY_GB := "150"
  const DEFAULT_CACHING_WRITE_MODE := "wb"
  const DEFAULT_BIGHASH_SIZE_PCT := "50"
  const DEFAULT_READER_THREAD := "128"
  const DEFAULT_WRITER_THREAD := "64"

  /** The value of `key`, or `default` when the property is not set. */
  function GetProperty(props: Properties, key: string, default: string): string
  {
    if key in props then props[key] else default
  }

  /* ---------- std::stoi ---------- */

  const INT_MIN: int := -0x8000_0000
  const INT_MAX: int := 0x7FFF_FFFF

  /** The values of a C++ `int`. */
  type Int32 = x: int | INT_MIN <= x <= INT_MAX

  /** The two exceptions std::stoi throws: std::invalid_argument and std::out_of_range. */
  datatype StoiError = InvalidArgument | OutOfRange

  /** The characters isspace accepts in the "C" locale. */
  predicate IsSpace(c: char)
  {
    c == ' ' || c == '\t' || c == '\n' || c == '\U{B}' || c == '\U{C}' || c == '\r'
  }

  predicate IsDigit(c: char)
  {
    '0' <= c <= '9'
  }

  /** Number of leading white-space characters of `s`. */
  function CountSpaces(s: string): (n: nat)
    ensures n <= |s|
    ensures forall i :: 0 <= i < n ==> IsSpace(s[i])
    ensures n < |s| ==> !IsSpace(s[n])
  {
    if s == [] || !IsSpace(s[0]) then 0 else 1 + CountSpaces(s[1..])
  }

  /** Number of leading decimal digits of `s`. */
  function CountDigits(s: string): (n: nat)
    ensures n <= |s|
    ensures forall i :: 0 <= i < n ==> IsDigit(s[i])
    ensures n < |s| ==> !IsDigit(s[n])
  {
    if s == [] || !IsDigit(s[0]) then 0 else 1 + CountDigits(s[1..])
  }

  predicate AllDigits(s: string)
  {
    forall i :: 0 <= i < |s| ==> IsDigit(s[i])
  }

  /** The number a string of decimal digits denotes, most significant digit first. */
  function DigitsValue(s: string): nat
    requires AllDigits(s)
  {
    if s == [] then 0 else 10 * DigitsValue(s[..|s| - 1]) + (s[|s| - 1] - '0') as nat
  }

  /**
    std::stoi with base 10: leading white space is skipped, an optional sign
    is read, then the longest run of digits; whatever follows is ignored. No
    digit at all is std::invalid_argument, a value outside `int` is
    std::out_of_range.
  */
  function Stoi(s: string): (r: Result<Int32, StoiError>)
  {
    StoiSigned(s[CountSpaces(s)..])
  }

  /** Stoi once the white space is skipped: the optional sign. */
  function StoiSigned(t: string): (r: Result<Int32, StoiError>)
  {
    if |t| > 0 && t[0] == '-' then StoiMagnitude(t[1..], true)
    else if |t| > 0 && t[0] == '+' then StoiMagnitude(t[1..], false)
    else StoiMagnitude(t, false)
  }

  /** Stoi after the sign: the run of digits and the range check. */
  function StoiMagnitude(u: string, negative: bool): (r: Result<Int32, StoiError>)
  {
    var k := CountDigits(u);
    if k == 0 then Failure(InvalidArgument)
    else
      var magnitude := DigitsValue(u[..k]);
      var v: int := if negative then 0 - magnitude else magnitude;
      if INT_MIN <= v <= INT_MAX then Success(v) else Failure(OutOfRange)
  }

  /** Decimal rendering of a natural number, the reference Stoi is checked against. */
  function NatDigits(n: nat): (s: string)
    ensures |s| > 0 && AllDigits(s)
    decreases n
  {
    if n < 10 then [('0' as int + n) as char]
    else NatDigits(n / 10) + [('0' as int + n % 10) as char]
  }

  /** Decimal rendering of an integer, with a leading '-' when it is negative. */
  function Render(n: int): (s: string)
  {
    if n < 0 then "-" + NatDigits(-n) else NatDigits(n)
  }

  lemma {:induction false} DigitsValueOfNatDigits(n: nat)
    ensures DigitsValue(NatDigits(n)) == n
    decreases n
  {
    var s := NatDigits(n);
    if n >= 10 {
      DigitsValueOfNatDigits(n / 10);
      assert s[..|s| - 1] == NatDigits(n / 10);
    }
  }

  lemma CountDigitsOfDigits(d: string, rest: string)
    requires AllDigits(d) && (rest == [] || !IsDigit(rest[0]))
    ensures CountDigits(d + rest) == |d|
    decreases |d|
  {
    if d != [] {
      assert (d + rest)[1..] == d[1..] + rest;
      CountDigitsOfDigits(d[1..], rest);
    } else {
      assert d + rest == rest;
    }
  }

  /** The digits of a magnitude followed by a non-digit are read as that magnitude. */
  lemma StoiMagnitudeOfDigits(m: nat, rest: string, negative: bool)
    requires rest == [] || !IsDigit(rest[0])
    ensures var v: int := if negative then 0 - m else m;
      INT_MIN <= v <= INT_MAX ==> StoiMagnitude(NatDigits(m) + rest, negative) == Success(v)
  {
    var d := NatDigits(m);
    CountDigitsOfDigits(d, rest);
    assert (d + rest)[..|d|] == d;
    DigitsValueOfNatDigits(m);
  }

  /** Stoi reads back every rendered `int`, whatever non-digit text follows it. */
  lemma StoiOfRenderedInt(n: Int32, rest: string)
    requires rest == [] || !IsDigit(rest[0])
    ensures Stoi(Render(n) + rest) == Success(n)
  {
    var ni: int := n;
    var m: nat := if ni < 0 then -ni else ni;
    var d := NatDigits(m);
    var t := Render(n) + rest;
    if ni < 0 {
      assert t == ['-'] + (d + rest);
      assert t[1..] == d + rest;
      StoiMagnitudeOfDigits(m, rest, true);
    } else {
      assert t == d + rest && IsDigit(t[0]);
      StoiMagnitudeOfDigits(m, rest, false);
    }
    assert !IsSpace(t[0]);
    assert t[CountSpaces(t)..] == t;
  }

  /** Leading white space does not change what Stoi reads. */
  lemma StoiSkipsSpaces(ws: string, s: string)
    requires forall i :: 0 <= i < |ws| ==> IsSpace(ws[i])
    requires s != [] && !IsSpace(s[0])
    ensures Stoi(ws + s) == Stoi(s)
  {
    SpacesThenNonSpace(ws, s);
    assert (ws + s)[|ws|..] == s;
    SpacesThenNonSpace([], s);
    assert s[0..] == s;
  }

  /** Stoi reads back every rendered `int`, after any white space and before any non-digit text. */
  lemma StoiOfRender(ws: string, n: Int32, rest: string)
    requires forall i :: 0 <= i < |ws| ==> IsSpace(ws[i])
    requires rest == [] || !IsDigit(rest[0])
    ensures Stoi(ws + Render(n) + rest) == Success(n)
  {
    var t := Render(n) + rest;
    StoiOfRenderedInt(n, rest);
    assert ws + Render(n) + rest == ws + t;
    StoiSkipsSpaces(ws, t);
  }

  lemma {:induction false} SpacesThenNonSpace(ws: string, s: string)
    requires forall i :: 0 <= i < |ws| ==> IsSpace(ws[i])
    requires s != [] && !IsSpace(s[0])
    ensures CountSpaces(ws + s) == |ws|
    decreases |ws|
  {
    if ws != [] {
      assert (ws + s)[0] == ws[0];
      assert (ws + s)[1..] == ws[1..] + s;
      SpacesThenNonSpace(ws[1..], s);
    } else {
      assert ws + s == s;
    }
  }

  /** A value with no digit after the white space and the sign is rejected as an invalid argument. */
  lemma StoiNeedsADigit(s: string)
    requires forall i :: 0 <= i < |s| ==> !IsDigit(s[i])
    ensures Stoi(s) == Failure(InvalidArgument)
  {
    var t := s[CountSpaces(s)..];
    var u := if |t| > 0 && (t[0] == '-' || t[0] == '+') then t[1..] else t;
    if |u| > 0 {
      assert u[0] in s;
    }
  }

  /* ---------- the configuration ---------- */

  const KB: nat := 1024
  const MB: nat := 1024 * KB
  const GB: nat := 1024 * MB

  /** One past the largest size_t (64-bit). */
  const SIZE_T_LIMIT: int := 0x1_0000_0000_0000_0000

  /**
    `x * unit` computed the way C++ computes an `int` times a `size_t`: the
    int is converted to the unsigned type and the product wraps modulo 2^64.
  */
  function SizeTimes(x: Int32, unit: nat): (r: nat)
    ensures r < SIZE_T_LIMIT
    ensures 0 <= x * unit < SIZE_T_LIMIT ==> r == x * unit
  {
    (x * unit) % SIZE_T_LIMIT
  }

  const STRIPING := "striping"
  const TIERING := "tiering"
  const MOST := "most"
  const CACHING := "caching"

  /** The modes Init recognises, each with the hierarchy kind it asks the engine for. */
  const HIERARCHY_KIND: map<string, string> :=
    map[STRIPING := "raid", TIERING := "tiering", MOST := "tiering", CACHING := "caching"]

  /** The two flash devices, capacity device first, and their capacities in bytes. */
  datatype Hierarchy = Hierarchy(paths: seq<string>, sizes: seq<nat>, kind: string)

  /** Migration settings of the tiering modes. */
  datatype TieringParams = TieringParams(
    migrateRate: nat,
    hotThreshold: nat,
    coolingThreshold: nat,
    hotBlockRegionSize: nat,
    offloadRatioMax: nat,
    offloadRatioMin: nat,
    hbrTuning: bool)

  /** The small-item engine, sized as a percentage of the flash space. */
  datatype BigHashParams = BigHashParams(sizePct: int, bucketSize: nat, bucketBfSize: nat, smallItemMaxSize: nat)

  /** Flash-cache settings that do not depend on the properties. */
  datatype FixedNavy = FixedNavy(
    blockCacheDataChecksum: bool,
    enableFastNegativeLookups: bool,
    blockCacheNumInMemBuffers: nat,
    navyReqOrderingShards: nat,
    blockSize: nat,
    blockCacheRegionSize: nat,
    blockCacheCleanRegions: nat,
    maxConcurrentInserts: nat,
    maxParcelMemoryMB: nat,
    truncateItemToOriginalAllocSizeInNvm: bool,
    deviceMaxWriteSize: nat)

  const FIXED_NAVY := FixedNavy(false, true, 128, 21, 4096, 2 * MB, 1, 1000000, 1024, false, 1024 * 1024)

  datatype NavyConfig = NavyConfig(
    hierarchy: Option<Hierarchy>,
    tiering: Option<TieringParams>,
    tieringPageSize: Option<nat>,
    writeMode: Option<string>,
    bigHash: Option<BigHashParams>,
    readerThreads: int,
    writerThreads: int,
    fixed: FixedNavy)

  /** Hash-table sizing of the RAM cache: 2^22 buckets, 2^20 locks. */
  datatype AccessConfig = AccessConfig(bucketsPower: nat, locksPower: nat)

  datatype CacheConfig = CacheConfig(
    cacheName: string,
    cacheSize: nat,
    poolRebalanceIntervalSeconds: nat,
    accessConfig: AccessConfig,
    chainedItemsAccessConfig: AccessConfig,
    nvmAdmissionMinTTL: nat,
    navy: NavyConfig)

  /** The hierarchy part of the mode dispatch. */
  function HierarchyFor(mode: string, paths: seq<string>, sizes: seq<nat>): Option<Hierarchy>
  {
    if mode == STRIPING then Some(Hierarchy(paths, sizes, "raid"))
    else if mode == TIERING || mode == MOST then Some(Hierarchy(paths, sizes, "tiering"))
    else if mode == CACHING then Some(Hierarchy(paths, sizes, "caching"))
    else None
  }

  /** The tiering settings, present only in the two tiering modes; hot-block-region tuning only in "most". */
  function TieringFor(mode: string): Option<TieringParams>
  {
    if mode == STRIPING then None
    else if mode == TIERING || mode == MOST then
      Some(TieringParams(100 * MB, 4, 200, 100000 * MB, 100, 0, mode == MOST))
    else None
  }

  function PageSizeFor(mode: string): Option<nat>
  {
    if mode == STRIPING then None
    else if mode == TIERING || mode == MOST then Some(2048 * KB)
    else if mode == CACHING then Some(2048 * KB)
    else None
  }

  function WriteModeFor(mode: string, props: Properties): Option<string>
  {
    if mode == CACHING then Some(GetProperty(props, PROP_CACHING_WRITE_MODE, DEFAULT_CACHING_WRITE_MODE))
    else None
  }

  /** BigHash is enabled for a positive percentage; both branches of the source pass the same values. */
  function BigHashFor(mode: string, pct: Int32): Option<BigHashParams>
  {
    if pct > 0 then
      if mode == CACHING then Some(BigHashParams(pct, 4096, 8, 2048))
      else Some(BigHashParams(pct, 4096, 8, 2048))
    else None
  }

  /** The six numeric settings, as std::stoi returned them. */
  datatype Numbers = Numbers(cacheSizeMB: Int32, capGB: Int32, perfGB: Int32, bigHashPct: Int32, readers: Int32, writers: Int32)

  /** The numeric properties with their defaults, in the order Init converts them. */
  const NUMERIC_PROPS: seq<(string, string)> := [
    (PROP_CACHE_SIZE_MB, DEFAULT_CACHE_SIZE_MB),
    (PROP_CAP_CAPACITY_GB, DEFAULT_CAP_CAPACITY_GB),
    (PROP_PERF_CAPACITY_GB, DEFAULT_PERF_CAPACITY_GB),
    (PROP_BIGHASH_SIZE_PCT, DEFAULT_BIGHASH_SIZE_PCT),
    (PROP_READER_THREAD, DEFAULT_READER_THREAD),
    (PROP_WRITER_THREAD, DEFAULT_WRITER_THREAD)]

  /** std::stoi applied to the `i`-th numeric property. */
  function Conversion(props: Properties, i: nat): Result<Int32, StoiError>
    requires i < |NUMERIC_PROPS|
  {
    Stoi(GetProperty(props, NUMERIC_PROPS[i].0, NUMERIC_PROPS[i].1))
  }

  /** The six conversions, in the order Init performs them. */
  function Conversions(props: Properties): (c: seq<Result<Int32, StoiError>>)
    ensures |c| == |NUMERIC_PROPS|
  {
    [Conversion(props, 0), Conversion(props, 1), Conversion(props, 2),
     Conversion(props, 3), Conversion(props, 4), Conversion(props, 5)]
  }

  /** Every value in order, or the error of the first conversion that failed (evaluation stops there). */
  function Collect(c: seq<Result<Int32, StoiError>>): (r: Result<seq<Int32>, StoiError>)
    ensures r.Success? ==> |r.value| == |c|
  {
    if c == [] then Success([])
    else if c[0].Failure? then Failure(c[0].error)
    else
      match Collect(c[1..])
      case Failure(e) => Failure(e)
      case Success(rest) => Success([c[0].value] + rest)
  }

  /** The numeric properties, converted in the order Init converts them. */
  function ReadNumbers(props: Properties): Result<Numbers, StoiError>
  {
    match Collect(Conversions(props))
    case Failure(e) => Failure(e)
    case Success(v) => Success(Numbers(v[0], v[1], v[2], v[3], v[4], v[5]))
  }

  /** The configuration Init hands to the engine once the numbers are read. */
  function Assemble(props: Properties, n: Numbers): CacheConfig
  {
    var mode := GetProperty(props, PROP_MODE, DEFAULT_MODE);
    var sizes := [SizeTimes(n.capGB, GB), SizeTimes(n.perfGB, GB)];
    var paths := [GetProperty(props, PROP_CAP_DEVICE, DEFAULT_CAP_DEVICE),
                  GetProperty(props, PROP_PERF_DEVICE, DEFAULT_PERF_DEVICE)];
    var navy := NavyConfig(
      HierarchyFor(mode, paths, sizes), TieringFor(mode), PageSizeFor(mode),
      WriteModeFor(mode, props), BigHashFor(mode, n.bigHashPct), n.readers, n.writers, FIXED_NAVY);
    CacheConfig("ycsb-cachelib", SizeTimes(n.cacheSizeMB, MB), 0, AccessConfig(22, 20), AccessConfig(22, 20), 0, navy)
  }

  /** Init's configuration, or the exception std::stoi threw. */
  function BuildConfig(props: Properties): Result<CacheConfig, StoiError>
  {
    match ReadNumbers(props)
    case Failure(e) => Failure(e)
    case Success(n) => Success(Assemble(props, n))
  }

  /* ---------- properties of the configuration ---------- */

  /**
    Collect succeeds exactly when every conversion does, with their values in
    order; otherwise its error is that of the first failed conversion.
  */
  lemma {:induction false} CollectFirstFailure(c: seq<Result<Int32, StoiError>>)
    ensures Collect(c).Success? <==> forall i :: 0 <= i < |c| ==> c[i].Success?
    ensures Collect(c).Success? ==> forall i :: 0 <= i < |c| ==> Collect(c).value[i] == c[i].value
    ensures Collect(c).Failure? ==>
      exists i :: 0 <= i < |c| && c[i] == Failure(Collect(c).error) && forall j :: 0 <= j < i ==> c[j].Success?
  {
    if c != [] && c[0].Success? {
      CollectFirstFailure(c[1..]);
      if Collect(c).Failure? {
        var i :| 0 <= i < |c[1..]| && c[1..][i] == Failure(Collect(c).error) &&
          forall j :: 0 <= j < i ==> c[1..][j].Success?;
        assert c[i + 1] == Failure(Collect(c).error);
        assert forall j :: 0 <= j < i + 1 ==> c[j].Success? by {
          forall j | 0 <= j < i + 1
            ensures c[j].Success?
          {
            if j > 0 {
              assert c[j] == c[1..][j - 1];
            }
          }
        }
      } else {
        forall i | 0 <= i < |c|
          ensures Collect(c).value[i] == c[i].value
        {
          if i > 0 {
            assert c[i] == c[1..][i - 1];
          }
        }
      }
    }
  }

  /**
    Init gets past its conversions exactly when every numeric property
    converts; otherwise the exception is the one of the first property, in
    conversion order, that std::stoi rejects.
  */
  lemma ReadNumbersFailsAtFirstBadProperty(props: Properties)
    ensures var c := Conversions(props);
      && (ReadNumbers(props).Success? <==> forall i :: 0 <= i < |c| ==> c[i].Success?)
      && (ReadNumbers(props).Failure? ==>
            exists i :: 0 <= i < |c| && c[i] == Failure(ReadNumbers(props).error) &&
              forall j :: 0 <= j < i ==> c[j].Success?)
  {
    CollectFirstFailure(Conversions(props));
  }

  /**
    The mode chooses the hierarchy: a recognised mode asks for the kind
    HIERARCHY_KIND gives it, over the capacity device then the performance
    device with their capacities in the same order; any other mode
    configures no hierarchy at all.
  */
  lemma ModeSelectsHierarchy(props: Properties, n: Numbers)
    ensures var mode := GetProperty(props, PROP_MODE, DEFAULT_MODE);
      var h := Assemble(props, n).navy.hierarchy;
      && (h.Some? <==> mode in HIERARCHY_KIND)
      && (h.Some? ==>
            h.value.kind == HIERARCHY_KIND[mode] &&
            h.value.paths ==
              [GetProperty(props, PROP_CAP_DEVICE, DEFAULT_CAP_DEVICE),
               GetProperty(props, PROP_PERF_DEVICE, DEFAULT_PERF_DEVICE)] &&
            h.value.sizes == [SizeTimes(n.capGB, GB), SizeTimes(n.perfGB, GB)])
  {
  }

  /**
    Tiering parameters exist exactly in the two tiering modes, with a 100 MiB
    migrate rate, hot threshold 4, cooling threshold 200, a 100000 MiB hot
    block region, offload ratios 100 and 0, and hot-block-region tuning exactly
    in "most". A write mode, the property's or "wb", is set exactly in
    "caching", and a 2048 KiB tiering page size exactly in the three modes
    other than striping.
  */
  lemma ModeSelectsTiering(props: Properties, n: Numbers)
    ensures var mode := GetProperty(props, PROP_MODE, DEFAULT_MODE);
      var navy := Assemble(props, n).navy;
      && (navy.tiering.Some? <==> mode == TIERING || mode == MOST)
      && (navy.tiering.Some? ==>
            navy.tiering.value == TieringParams(100 * MB, 4, 200, 100000 * MB, 100, 0, mode == MOST))
      && (navy.writeMode.Some? <==> mode == CACHING)
      && (navy.writeMode.Some? ==>
            navy.writeMode.value == GetProperty(props, PROP_CACHING_WRITE_MODE, DEFAULT_CACHING_WRITE_MODE))
      && (navy.tieringPageSize.Some? <==> mode in HIERARCHY_KIND && mode != STRIPING)
      && (navy.tieringPageSize.Some? ==> navy.tieringPageSize.value == 2048 * KB)
  {
  }

  /**
    BigHash is configured exactly when its percentage is positive, with
    4096-byte buckets, an 8-byte bloom filter and items up to 2048 bytes,
    and the mode does not change it.
  */
  lemma BigHashIgnoresMode(props: Properties, n: Numbers, mode: string)
    ensures Assemble(props, n).navy.bigHash.Some? <==> n.bigHashPct > 0
    ensures Assemble(props, n).navy.bigHash.Some? ==>
      Assemble(props, n).navy.bigHash.value == BigHashParams(n.bigHashPct, 4096, 8, 2048)
    ensures Assemble(props[PROP_MODE := mode], n).navy.bigHash == Assemble(props, n).navy.bigHash
  {
  }

  /** The RAM cache size is the property in MiB converted to bytes, modulo 2^64 as size_t arithmetic wraps. */
  lemma CacheSizeInBytes(props: Properties, n: Numbers)
    ensures n.cacheSizeMB >= 0 ==> Assemble(props, n).cacheSize == n.cacheSizeMB * MB
    ensures n.cacheSizeMB < 0 ==> Assemble(props, n).cacheSize == SIZE_T_LIMIT + n.cacheSizeMB * MB
  {
  }

  lemma StoiOfDecimal(n: nat, s: string)
    requires n <= INT_MAX && s == NatDigits(n)
    ensures Stoi(s) == Success(n)
  {
    StoiOfRenderedInt(n, []);
    assert Render(n) + [] == s;
  }

  /** The decimal spellings of the numeric defaults. */
  lemma DefaultSpellings()
    ensures NatDigits(1024) == "1024" && NatDigits(150) == "150" && NatDigits(100) == "100"
    ensures NatDigits(50) == "50" && NatDigits(128) == "128" && NatDigits(64) == "64"
  {
    assert NatDigits(1) == "1" && NatDigits(5) == "5" && NatDigits(6) == "6";
    assert NatDigits(10) == "10" && NatDigits(15) == "15" && NatDigits(12) == "12";
    assert NatDigits(102) == "102";
  }

  /** Every numeric default spells the number it stands for. */
  lemma DefaultsConvert()
    ensures Stoi(DEFAULT_CACHE_SIZE_MB) == Success(1024)
    ensures Stoi(DEFAULT_CAP_CAPACITY_GB) == Success(150)
    ensures Stoi(DEFAULT_PERF_CAPACITY_GB) == Success(100)
    ensures Stoi(DEFAULT_BIGHASH_SIZE_PCT) == Success(50)
    ensures Stoi(DEFAULT_READER_THREAD) == Success(128)
    ensures Stoi(DEFAULT_WRITER_THREAD) == Success(64)
  {
    DefaultSpellings();
    StoiOfDecimal(1024, DEFAULT_CACHE_SIZE_MB);
    StoiOfDecimal(150, DEFAULT_CAP_CAPACITY_GB);
    StoiOfDecimal(100, DEFAULT_PERF_CAPACITY_GB);
    StoiOfDecimal(50, DEFAULT_BIGHASH_SIZE_PCT);
    StoiOfDecimal(128, DEFAULT_READER_THREAD);
    StoiOfDecimal(64, DEFAULT_WRITER_THREAD);
  }

  /** Every property the adapter reads. */
  const ADAPTER_PROPS: set<string> := {
    PROP_CACHE_SIZE_MB, PROP_MODE, PROP_PERF_DEVICE, PROP_PERF_CAPACITY_GB, PROP_CAP_DEVICE,
    PROP_CAP_CAPACITY_GB, PROP_CACHING_WRITE_MODE, PROP_BIGHASH_SIZE_PCT, PROP_READER_THREAD,
    PROP_WRITER_THREAD}

  lemma GetPropertyOfOtherKey(props: Properties, k: string, v: string, key: string, default: string)
    requires k != key
    ensures GetProperty(props[k := v], key, default) == GetProperty(props, key, default)
  {
  }

  lemma ConversionsIgnoreOtherKeys(props: Properties, k: string, v: string)
    requires k !in ADAPTER_PROPS
    ensures Conversions(props[k := v]) == Conversions(props)
  {
    GetPropertyOfOtherKey(props, k, v, PROP_CACHE_SIZE_MB, DEFAULT_CACHE_SIZE_MB);
    GetPropertyOfOtherKey(props, k, v, PROP_CAP_CAPACITY_GB, DEFAULT_CAP_CAPACITY_GB);
    GetPropertyOfOtherKey(props, k, v, PROP_PERF_CAPACITY_GB, DEFAULT_PERF_CAPACITY_GB);
    GetPropertyOfOtherKey(props, k, v, PROP_BIGHASH_SIZE_PCT, DEFAULT_BIGHASH_SIZE_PCT);
    GetPropertyOfOtherKey(props, k, v, PROP_READER_THREAD, DEFAULT_READER_THREAD);
    GetPropertyOfOtherKey(props, k, v, PROP_WRITER_THREAD, DEFAULT_WRITER_THREAD);
  }

  lemma AssembleIgnoresOtherKeys(props: Properties, k: string, v: string, n: Numbers)
    requires k !in ADAPTER_PROPS
    ensures Assemble(props[k := v], n) == Assemble(props, n)
  {
    GetPropertyOfOtherKey(props, k, v, PROP_MODE, DEFAULT_MODE);
    GetPropertyOfOtherKey(props, k, v, PROP_CAP_DEVICE, DEFAULT_CAP_DEVICE);
    GetPropertyOfOtherKey(props, k, v, PROP_PERF_DEVICE, DEFAULT_PERF_DEVICE);
    GetPropertyOfOtherKey(props, k, v, PROP_CACHING_WRITE_MODE, DEFAULT_CACHING_WRITE_MODE);
  }

  /** Init reads only the adapter's own properties: setting any other key changes neither the configuration nor the error. */
  lemma UnreadPropertiesIgnored(props: Properties, k: string, v: string)
    requires k !in ADAPTER_PROPS
    ensures BuildConfig(props[k := v]) == BuildConfig(props)
  {
    ConversionsIgnoreOtherKeys(props, k, v);
    assert ReadNumbers(props[k := v]) == ReadNumbers(props);
    if ReadNumbers(props).Success? {
      AssembleIgnoresOtherKeys(props, k, v, ReadNumbers(props).value);
    }
  }

  /** With none of the adapter's properties set, every conversion reads the default. */
  lemma ConversionsOfUnset(props: Properties)
    requires forall k :: k in ADAPTER_PROPS ==> k !in props
    ensures Conversions(props) == [
      Stoi(DEFAULT_CACHE_SIZE_MB), Stoi(DEFAULT_CAP_CAPACITY_GB), Stoi(DEFAULT_PERF_CAPACITY_GB),
      Stoi(DEFAULT_BIGHASH_SIZE_PCT), Stoi(DEFAULT_READER_THREAD), Stoi(DEFAULT_WRITER_THREAD)]
  {
  }

  lemma CollectOfDefaults(c: seq<Result<Int32, StoiError>>)
    requires c == [Success(1024), Success(150), Success(100), Success(50), Success(128), Success(64)]
    ensures Collect(c) == Success([1024, 150, 100, 50, 128, 64])
  {
    forall i | 0 <= i < |c|
      ensures c[i].Success?
    {
      assert i in {0, 1, 2, 3, 4, 5};
    }
    CollectFirstFailure(c);
    var r := Collect(c).value;
    assert r[0] == c[0].value && r[1] == c[1].value && r[2] == c[2].value;
    assert r[3] == c[3].value && r[4] == c[4].value && r[5] == c[5].value;
    assert r == [1024, 150, 100, 50, 128, 64];
  }

  lemma DefaultNumbers(props: Properties)
    requires forall k :: k in ADAPTER_PROPS ==> k !in props
    ensures ReadNumbers(props) == Success(Numbers(1024, 150, 100, 50, 128, 64))
  {
    assert Conversions(props) ==
      [Success(1024), Success(150), Success(100), Success(50), Success(128), Success(64)] by {
      DefaultsConvert();
      ConversionsOfUnset(props);
    }
    CollectOfDefaults(Conversions(props));
  }

  /**
    With none of the adapter's properties set, Init configures a 1 GiB RAM
    cache over the two default devices striped together, BigHash at 50 per
    cent, 128 reader and 64 writer threads.
  */
  lemma DefaultConfig(props: Properties)
    requires forall k :: k in ADAPTER_PROPS ==> k !in props
    ensures BuildConfig(props).Success?
    ensures var c := BuildConfig(props).value;
      && c.cacheSize == 1024 * MB
      && c.navy.hierarchy == Some(Hierarchy(["nvme0", "optane0"], [150 * GB, 100 * GB], "raid"))
      && c.navy.tiering == None && c.navy.writeMode == None && c.navy.tieringPageSize == None
      && c.navy.bigHash == Some(BigHashParams(50, 4096, 8, 2048))
      && c.navy.readerThreads == 128 && c.navy.writerThreads == 64
  {
    DefaultNumbers(props);
    assert PROP_MODE !in props && PROP_CAP_DEVICE !in props && PROP_PERF_DEVICE !in props;
  }
}
