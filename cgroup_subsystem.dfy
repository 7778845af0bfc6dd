/** The shared cgroup (version 1 and version 2) declarations of the Linux
    container support: version and controller-index constants, the scanf
    formats used to read one field of a two-field line, the time-limited
    metric cache, the controller wrapper that owns such a cache, the
    per-controller bootstrap record and the factory's version selectors.

    The monotonic clock `os::elapsed_counter()` is an explicit parameter
    `now` wherever it is read. C's `jlong` is a 64-bit signed integer and
    `u1` an unsigned byte; both are subset types of `int` here.
 */
module CgroupSubsystem {
  import opened Wrappers

  const MinJlong: int := -0x8000_0000_0000_0000
  const MaxJlong: int := 0x7fff_ffff_ffff_ffff

  type JLong = x: int | MinJlong <= x <= MaxJlong
  type U1 = x: int | 0 <= x < 256
  type CInt = x: int | -0x8000_0000 <= x < 0x8000_0000

  // Result codes of cgroup version detection, as stored in the u1 flags.
  const CgroupsV1: U1 := 1
  const CgroupsV2: U1 := 2
  const InvalidCgroupsV2: U1 := 3
  const InvalidCgroupsV1: U1 := 4
  const InvalidCgroupsNoMount: U1 := 5
  const InvalidCgroupsGeneric: U1 := 6

  // The five tracked controllers and their slots in the CgroupInfo table.
  const CgInfoLength: nat := 5
  const CpusetIdx: nat := 0
  const CpuIdx: nat := 1
  const CpuacctIdx: nat := 2
  const MemoryIdx: nat := 3
  const PidsIdx: nat := 4

  /** The five controller indices are pairwise distinct and are exactly the
      slots of a table of CG_INFO_LENGTH entries. */
  lemma ControllerIndicesFillTable()
    ensures |{CpusetIdx, CpuIdx, CpuacctIdx, MemoryIdx, PidsIdx}| == CgInfoLength
    ensures CpusetIdx < CgInfoLength && CpuIdx < CgInfoLength && CpuacctIdx < CgInfoLength
    ensures MemoryIdx < CgInfoLength && PidsIdx < CgInfoLength
  {
  }

  // -----------------------------------------------------------------------
  // CgroupSubsystemFactory's selectors over the detection flags

  /** is_cgroup_v2: the flags say version 2. */
  predicate IsCgroupV2(flags: U1)
  {
    flags == CgroupsV2
  }

  /** is_valid_cgroup: the flags say version 1 or version 2. */
  predicate IsValidCgroup(flags: U1)
  {
    flags == CgroupsV1 || flags == CgroupsV2
  }

  /** is_cgroup_v1: the flags say version 1. */
  predicate IsCgroupV1(flags: U1)
  {
    flags == CgroupsV1
  }

  /** A valid detection result names exactly one version. */
  lemma ValidCgroupIsExactlyOneVersion(flags: U1)
    ensures IsValidCgroup(flags) <==> (IsCgroupV1(flags) != IsCgroupV2(flags))
  {
  }

  /** None of the four INVALID_* codes is valid or names a version. */
  lemma InvalidCodesNameNoVersion(flags: U1)
    requires InvalidCgroupsV2 <= flags <= InvalidCgroupsGeneric
    ensures !IsValidCgroup(flags) && !IsCgroupV1(flags) && !IsCgroupV2(flags)
  {
  }

  // -----------------------------------------------------------------------
  // CgroupController::tuple_format and the meaning of its formats

  /** Which field of a two-field line to read. */
  datatype TupleValue = First | Second

  /** tuple_format: the sscanf format that keeps the wanted field of a
      two-field line and skips the other. */
  function TupleFormat(val: TupleValue): string
  {
    match val
    case First => "%1023s %*s"
    case Second => "%*s %1023s"
  }

  /** The white-space characters of the C locale. */
  predicate IsSpace(c: char)
  {
    c == ' ' || c == '\t' || c == '\n' || c == '\r' || c == '\U{000B}' || c == '\U{000C}'
  }

  predicate IsBlank(s: string)
  {
    forall i :: 0 <= i < |s| ==> IsSpace(s[i])
  }

  /** A non-empty run of non-white-space characters. */
  predicate IsToken(s: string)
  {
    |s| > 0 && forall i :: 0 <= i < |s| ==> !IsSpace(s[i])
  }

  predicate IsDigit(c: char)
  {
    '0' <= c <= '9'
  }

  /** One directive of a scanf format, restricted to the kinds the tuple
      formats are made of: a run of white space, an ordinary character, or
      an `s` conversion (assigned unless written `%*s`, with an optional
      maximum field width). */
  datatype Directive = Blank | Ordinary(c: char) | StringConversion(assign: bool, width: Option<nat>)

  /** The number of leading decimal digits of `s`. */
  function DigitCount(s: string): (n: nat)
    ensures n <= |s|
    ensures forall i :: 0 <= i < n ==> IsDigit(s[i])
    ensures n == |s| || !IsDigit(s[n])
  {
    if s != [] && IsDigit(s[0]) then 1 + DigitCount(s[1..]) else 0
  }

  /** The value of a string of decimal digits. */
  function DigitsValue(s: string): nat
    requires forall i :: 0 <= i < |s| ==> IsDigit(s[i])
  {
    if s == [] then 0
    else
      assert IsDigit(s[|s| - 1]);
      10 * DigitsValue(s[..|s| - 1]) + (s[|s| - 1] as int - '0' as int)
  }

  /** The directives of a format, or None for a format outside the subset
      above. */
  function ParseFormat(fmt: string): Option<seq<Directive>>
    decreases |fmt|
  {
    if fmt == [] then Some([])
    else if IsSpace(fmt[0]) then
      match ParseFormat(fmt[1..])
      case Some(ds) => Some(if ds != [] && ds[0] == Blank then ds else [Blank] + ds)
      case None => None
    else if fmt[0] != '%' then
      match ParseFormat(fmt[1..])
      case Some(ds) => Some([Ordinary(fmt[0])] + ds)
      case None => None
    else
      var assign := !(|fmt| > 1 && fmt[1] == '*');
      var spec := if assign then fmt[1..] else fmt[2..];
      var n := DigitCount(spec);
      var width := if n == 0 then None else Some(DigitsValue(spec[..n]));
      if n < |spec| && spec[n] == 's' then
        match ParseFormat(spec[n + 1..])
        case Some(ds) => Some([StringConversion(assign, width)] + ds)
        case None => None
      else None
  }

  /** `s` without its leading white space. */
  function SkipSpaces(s: string): (r: string)
    ensures |r| <= |s| && r == s[|s| - |r|..]
    ensures IsBlank(s[..|s| - |r|])
    ensures r == [] || !IsSpace(r[0])
  {
    if s != [] && IsSpace(s[0]) then
      var r := SkipSpaces(s[1..]);
      assert s[..|s| - |r|] == [s[0]] + s[1..][..|s| - 1 - |r|];
      r
    else
      assert s[..0] == [];
      s
  }

  /** The characters an `s` conversion consumes from `s` (which starts
      after any white space): the longest non-white-space prefix, cut at the
      field width. */
  function Field(s: string, width: Option<nat>): (f: string)
    ensures |f| <= |s| && f == s[..|f|]
    ensures forall i :: 0 <= i < |f| ==> !IsSpace(s[i])
    ensures width.Some? ==> |f| <= width.value
    ensures |f| == |s| || IsSpace(s[|f|]) || (width.Some? && |f| == width.value)
  {
    if s == [] || IsSpace(s[0]) || width == Some(0) then []
    else [s[0]] + Field(s[1..], if width.Some? then Some(width.value - 1) else None)
  }

  /** What sscanf assigns when it runs the directives over `input`: the
      fields of the assigning conversions, in order, up to the first
      directive that fails. */
  function Scan(ds: seq<Directive>, input: string): seq<string>
    decreases |ds|
  {
    if ds == [] then []
    else match ds[0]
      case Blank => Scan(ds[1..], SkipSpaces(input))
      case Ordinary(c) => if input != [] && input[0] == c then Scan(ds[1..], input[1..]) else []
      case StringConversion(assign, width) =>
        var rest := SkipSpaces(input);
        var f := Field(rest, width);
        if f == [] then []
        else (if assign then [f] else []) + Scan(ds[1..], rest[|f|..])
  }

  /** A string of leading white space is skipped whole. */
  lemma {:induction false} SkipSpacesOverBlank(blank: string, s: string)
    requires IsBlank(blank)
    requires s == [] || !IsSpace(s[0])
    ensures SkipSpaces(blank + s) == s
  {
    if blank == [] {
      assert blank + s == s;
    } else {
      assert (blank + s)[0] == blank[0];
      assert (blank + s)[1..] == blank[1..] + s;
      SkipSpacesOverBlank(blank[1..], s);
    }
  }

  /** An `s` conversion whose width admits a whole token consumes exactly
      that token. */
  lemma {:induction false} FieldOfToken(t: string, s: string, width: Option<nat>)
    requires forall i :: 0 <= i < |t| ==> !IsSpace(t[i])
    requires s == [] || IsSpace(s[0])
    requires width.Some? ==> |t| <= width.value
    ensures Field(t + s, width) == t
  {
    if t == [] {
      assert t + s == s;
    } else {
      assert (t + s)[0] == t[0];
      assert (t + s)[1..] == t[1..] + s;
      FieldOfToken(t[1..], s, if width.Some? then Some(width.value - 1) else None);
    }
  }

  /** An `s` conversion over white space and a token yields that token (if
      it assigns) and leaves the rest of the input to the next directive. */
  lemma ScanConversionStep(assign: bool, width: Option<nat>, ds: seq<Directive>, blank: string, t: string, s: string)
    requires IsBlank(blank) && IsToken(t)
    requires s == [] || IsSpace(s[0])
    requires width.Some? ==> |t| <= width.value
    ensures Scan([StringConversion(assign, width)] + ds, blank + t + s) == (if assign then [t] else []) + Scan(ds, s)
  {
    var all := [StringConversion(assign, width)] + ds;
    assert all[0] == StringConversion(assign, width) && all[1..] == ds;
    assert blank + t + s == blank + (t + s);
    SkipSpacesOverBlank(blank, t + s);
    FieldOfToken(t, s, width);
    assert (t + s)[|t|..] == s;
  }

  /** A blank directive skips all leading white space. */
  lemma ScanBlankStep(ds: seq<Directive>, blank: string, s: string)
    requires IsBlank(blank)
    requires s == [] || !IsSpace(s[0])
    ensures Scan([Blank] + ds, blank + s) == Scan(ds, s)
  {
    var all := [Blank] + ds;
    assert all[0] == Blank && all[1..] == ds;
    SkipSpacesOverBlank(blank, s);
  }

  /** The width written in both tuple formats. */
  lemma WidthIs1023()
    ensures DigitsValue("1023") == 1023
  {
    assert DigitsValue("1") == 1 by { assert "1"[..0] == []; }
    assert DigitsValue("10") == 10 by { assert "10"[..1] == "1"; }
    assert DigitsValue("102") == 102 by { assert "102"[..2] == "10"; }
    assert "1023"[..3] == "102";
  }

  /** Prepends `d` to a successful parse. */
  function Prepend(d: Directive, p: Option<seq<Directive>>): Option<seq<Directive>>
  {
    match p
    case Some(ds) => Some([d] + ds)
    case None => None
  }

  /** `%1023s` in front of `rest` parses to an assigning conversion of
      width 1023. */
  lemma AssignConversionStep(rest: string)
    ensures ParseFormat("%1023s" + rest) == Prepend(StringConversion(true, Some(1023)), ParseFormat(rest))
  {
    WidthIs1023();
    var fmt := "%1023s" + rest;
    var spec := fmt[1..];
    assert fmt[0] == '%' && fmt[1] == '1';
    assert spec[..4] == "1023" && spec[4] == 's' && spec[5..] == rest;
    assert spec[1..][1..][1..][1..] == spec[4..];
    assert DigitCount(spec[4..]) == 0;
    assert DigitCount(spec) == 4;
  }

  /** `%*s` in front of `rest` parses to a suppressed conversion without a
      width. */
  lemma SkipConversionStep(rest: string)
    ensures ParseFormat("%*s" + rest) == Prepend(StringConversion(false, None), ParseFormat(rest))
  {
    var fmt := "%*s" + rest;
    assert fmt[0] == '%' && fmt[1] == '*';
    assert fmt[2..][0] == 's' && fmt[2..][1..] == rest;
    assert DigitCount(fmt[2..]) == 0;
  }

  /** A space in front of a conversion parses to one blank directive. */
  lemma BlankBeforeConversionStep(rest: string)
    requires rest != [] && rest[0] == '%'
    ensures ParseFormat(" " + rest) == Prepend(Blank, ParseFormat(rest))
  {
    var fmt := " " + rest;
    assert fmt[1..] == rest;
    match ParseFormat(rest)
    case None =>
    case Some(ds) =>
      assert ds != [] ==> ds[0] != Blank;
  }

  /** The directives tuple_format(val) parses to. */
  function TupleDirectives(val: TupleValue): seq<Directive>
  {
    match val
    case First => [StringConversion(true, Some(1023)), Blank, StringConversion(false, None)]
    case Second => [StringConversion(false, None), Blank, StringConversion(true, Some(1023))]
  }

  /** The directives of tuple_format(FIRST). */
  lemma FirstFormatDirectives()
    ensures ParseFormat(TupleFormat(First)) == Some(TupleDirectives(First))
  {
    var tail := " %*s";
    var r := ParseFormat(tail);
    SkipConversionStep([]);
    assert "%*s" + [] == "%*s";
    BlankBeforeConversionStep("%*s");
    assert " " + "%*s" == tail;
    assert ParseFormat([]) == Some([]);
    assert [StringConversion(false, None)] + [] == [StringConversion(false, None)];
    assert ParseFormat("%*s") == Some([StringConversion(false, None)]);
    assert r == Some([Blank, StringConversion(false, None)]) by {
      assert [Blank] + [StringConversion(false, None)] == [Blank, StringConversion(false, None)];
    }
    AssignConversionStep(tail);
    assert TupleFormat(First) == "%1023s" + tail;
    assert [StringConversion(true, Some(1023))] + [Blank, StringConversion(false, None)]
        == TupleDirectives(First);
  }

  /** The directives of the tail " %1023s" of tuple_format(SECOND). */
  lemma AssignedTailDirectives()
    ensures ParseFormat(" %1023s") == Some([Blank, StringConversion(true, Some(1023))])
  {
    AssignConversionStep([]);
    assert "%1023s" + [] == "%1023s";
    BlankBeforeConversionStep("%1023s");
    assert " " + "%1023s" == " %1023s";
    assert ParseFormat([]) == Some([]);
    assert [StringConversion(true, Some(1023))] + [] == [StringConversion(true, Some(1023))];
    assert ParseFormat("%1023s") == Some([StringConversion(true, Some(1023))]);
    assert [Blank] + [StringConversion(true, Some(1023))] == [Blank, StringConversion(true, Some(1023))];
  }

  /** The directives of tuple_format(SECOND). */
  lemma SecondFormatDirectives()
    ensures ParseFormat(TupleFormat(Second)) == Some(TupleDirectives(Second))
  {
    var tail := " %1023s";
    AssignedTailDirectives();
    SkipConversionStep(tail);
    assert TupleFormat(Second) == "%*s" + tail;
    assert [StringConversion(false, None)] + [Blank, StringConversion(true, Some(1023))]
        == TupleDirectives(Second);
  }

  /** The scan of a line with a tuple format. */
  function ScanTuple(val: TupleValue, input: string): seq<string>
  {
    match ParseFormat(TupleFormat(val))
    case Some(ds) => Scan(ds, input)
    case None => []
  }

  /** Scanning with a tuple format runs that format's directives. */
  lemma ScanTupleRunsDirectives(val: TupleValue, input: string)
    ensures ScanTuple(val, input) == Scan(TupleDirectives(val), input)
  {
    if val == First {
      FirstFormatDirectives();
    } else {
      SecondFormatDirectives();
    }
  }

  /** A final conversion over a token with nothing blank before it. */
  lemma ScanLastConversion(assign: bool, width: Option<nat>, t: string, s: string)
    requires IsToken(t)
    requires s == [] || IsSpace(s[0])
    requires width.Some? ==> |t| <= width.value
    ensures Scan([StringConversion(assign, width)], t + s) == (if assign then [t] else [])
  {
    var e: string := [];
    assert e + t + s == t + s;
    var none: seq<Directive> := [];
    assert [StringConversion(assign, width)] + none == [StringConversion(assign, width)];
    ScanConversionStep(assign, width, none, e, t, s);
  }

  /** Two conversions separated by a blank directive, over
      `lead t1 sep t2 trail`, consume one token each. */
  lemma ScanTwoConversions(a1: bool, w1: Option<nat>, a2: bool, w2: Option<nat>,
                           lead: string, t1: string, sep: string, t2: string, trail: string)
    requires IsBlank(lead) && IsBlank(sep) && |sep| > 0
    requires IsToken(t1) && IsToken(t2)
    requires w1.Some? ==> |t1| <= w1.value
    requires w2.Some? ==> |t2| <= w2.value
    requires trail == [] || IsSpace(trail[0])
    ensures Scan([StringConversion(a1, w1), Blank, StringConversion(a2, w2)], lead + t1 + sep + t2 + trail)
         == (if a1 then [t1] else []) + (if a2 then [t2] else [])
  {
    var c2 := [StringConversion(a2, w2)];
    var rest := [Blank] + c2;
    var afterT1 := sep + (t2 + trail);
    var line := lead + t1 + afterT1;
    var p1: seq<string> := if a1 then [t1] else [];
    var p2: seq<string> := if a2 then [t2] else [];
    assert lead + t1 + sep + t2 + trail == line;
    assert [StringConversion(a1, w1), Blank, StringConversion(a2, w2)] == [StringConversion(a1, w1)] + rest;
    assert Scan([StringConversion(a1, w1)] + rest, line) == p1 + Scan(rest, afterT1) by {
      ScanConversionStep(a1, w1, rest, lead, t1, afterT1);
    }
    assert Scan(rest, afterT1) == Scan(c2, t2 + trail) by {
      ScanBlankStep(c2, sep, t2 + trail);
    }
    ScanLastConversion(a2, w2, t2, trail);
  }

  /** tuple_format(FIRST) on a line `lead t1 sep t2 trail` whose two fields
      are tokens separated by white space assigns the first field whole
      (when it has at most 1023 characters) and skips the second. */
  lemma TupleFirstSelectsFirstField(lead: string, t1: string, sep: string, t2: string, trail: string)
    requires IsBlank(lead) && IsBlank(sep) && |sep| > 0
    requires IsToken(t1) && |t1| <= 1023 && IsToken(t2)
    requires trail == [] || IsSpace(trail[0])
    ensures ScanTuple(First, lead + t1 + sep + t2 + trail) == [t1]
  {
    ScanTupleRunsDirectives(First, lead + t1 + sep + t2 + trail);
    ScanTwoConversions(true, Some(1023), false, None, lead, t1, sep, t2, trail);
  }

  /** tuple_format(SECOND) on such a line skips the first field and assigns
      the second whole (when it has at most 1023 characters). */
  lemma TupleSecondSelectsSecondField(lead: string, t1: string, sep: string, t2: string, trail: string)
    requires IsBlank(lead) && IsBlank(sep) && |sep| > 0
    requires IsToken(t1) && IsToken(t2) && |t2| <= 1023
    requires trail == [] || IsSpace(trail[0])
    ensures ScanTuple(Second, lead + t1 + sep + t2 + trail) == [t2]
  {
    ScanTupleRunsDirectives(Second, lead + t1 + sep + t2 + trail);
    ScanTwoConversions(false, None, true, Some(1023), lead, t1, sep, t2, trail);
  }

  /** The directives of a tuple format over a line with a single field. */
  lemma ScanOneField(val: TupleValue, lead: string, t1: string, trail: string)
    requires IsBlank(lead) && IsBlank(trail)
    requires IsToken(t1) && |t1| <= 1023
    ensures Scan(TupleDirectives(val), lead + t1 + trail) == (if val == First then [t1] else [])
  {
    var ds := TupleDirectives(val);
    var rest := ds[1..];
    assert ds == [ds[0]] + rest && rest == [Blank] + rest[1..];
    assert trail == [] || IsSpace(trail[0]);
    assert trail + [] == trail;
    ScanConversionStep(ds[0].assign, ds[0].width, rest, lead, t1, trail);
    ScanBlankStep(rest[1..], trail, []);
  }

  /** On a line with a single field, FIRST still assigns that field while
      SECOND assigns nothing. */
  lemma TupleFormatOnSingleField(lead: string, t1: string, trail: string)
    requires IsBlank(lead) && IsBlank(trail)
    requires IsToken(t1) && |t1| <= 1023
    ensures ScanTuple(First, lead + t1 + trail) == [t1]
    ensures ScanTuple(Second, lead + t1 + trail) == []
  {
    ScanTupleRunsDirectives(First, lead + t1 + trail);
    ScanTupleRunsDirectives(Second, lead + t1 + trail);
    ScanOneField(First, lead, t1, trail);
    ScanOneField(Second, lead, t1, trail);
  }

  // -----------------------------------------------------------------------
  // CachedMetric

  /** A metric value with the clock reading after which it is stale. */
  class CachedMetric {
    var metric: JLong
    var nextCheckCounter: JLong

    /** A new cache holds the "unknown" value -1 and is stale at every
        clock reading above min_jlong. */
    constructor ()
      ensures metric == -1 && nextCheckCounter == MinJlong
      ensures forall now: JLong :: now > MinJlong ==> ShouldCheckMetric(now)
    {
      metric := -1;
      nextCheckCounter := MinJlong;
    }

    /** should_check_metric: the clock has passed the deadline. */
    predicate ShouldCheckMetric(now: JLong)
      reads this
    {
      now > nextCheckCounter
    }

    /** value: the cached metric. */
    function Value(): JLong
      reads this
    {
      metric
    }

    /** set_value: caches `value` and is fresh until `now + timeout`. */
    method SetValue(value: JLong, timeout: JLong, now: JLong)
      requires MinJlong <= now + timeout <= MaxJlong
      modifies this
      ensures metric == value && nextCheckCounter == now + timeout
      ensures Value() == value
      ensures forall c: JLong :: ShouldCheckMetric(c) <==> c > now + timeout
    {
      metric := value;
      nextCheckCounter := now + timeout;
    }
  }

  /** The read protocol the cache serves (its callers are in
      cgroupSubsystem_linux.cpp): return the cached value while it is
      fresh at clock reading `now`; otherwise take the controller's fresh
      reading `reading` and cache it with set_value, which reads the clock
      again (`setNow`, after the controller read), and return it. */
  method CachedRead(cache: CachedMetric, now: JLong, setNow: JLong, timeout: JLong, reading: JLong)
    returns (v: JLong)
    requires now <= setNow
    requires MinJlong <= setNow + timeout <= MaxJlong
    modifies cache
    ensures !old(cache.ShouldCheckMetric(now)) ==> v == old(cache.Value()) && unchanged(cache)
    ensures old(cache.ShouldCheckMetric(now)) ==>
      v == reading && cache.Value() == reading && cache.nextCheckCounter == setNow + timeout
  {
    if !cache.ShouldCheckMetric(now) {
      v := cache.Value();
    } else {
      cache.SetValue(reading, timeout, setNow);
      v := reading;
    }
  }

  /** Two reads of one cache, the first checking the clock at `now0` and
      (if stale) setting the value at `setNow0`, the second at `now1` and
      `setNow1`. A second read within the grace period that the first
      started returns the first's value whatever the controller now reads;
      one within the grace period the first found returns the old cached
      value; one after the later of both deadlines returns the new
      reading. */
  method ReadTwice(cache: CachedMetric, now0: JLong, setNow0: JLong, reading0: JLong,
                   now1: JLong, setNow1: JLong, reading1: JLong, timeout: JLong)
    returns (v0: JLong, v1: JLong)
    requires timeout >= 0
    requires now0 <= setNow0 <= now1 <= setNow1
    requires MinJlong <= setNow0 + timeout <= MaxJlong && MinJlong <= setNow1 + timeout <= MaxJlong
    requires cache.nextCheckCounter <= now0 + timeout
    modifies cache
    ensures now1 <= setNow0 + timeout && old(cache.ShouldCheckMetric(now0)) ==> v1 == v0 == reading0
    ensures now1 <= old(cache.nextCheckCounter) ==> v1 == v0 == old(cache.Value())
    ensures now1 > setNow0 + timeout ==> v1 == reading1
  {
    v0 := CachedRead(cache, now0, setNow0, timeout, reading0);
    v1 := CachedRead(cache, now1, setNow1, timeout, reading1);
  }

  // -----------------------------------------------------------------------
  // CachingCgroupController

  /** A controller paired with the cache of its most often read metric. */
  class CachingCgroupController<T> {
    var controller: T
    var metricsCache: CachedMetric

    /** Stores the controller and gives it a new, stale cache. */
    constructor (cont: T)
      ensures controller == cont && Controller() == cont
      ensures fresh(metricsCache)
      ensures metricsCache.Value() == -1 && metricsCache.nextCheckCounter == MinJlong
    {
      controller := cont;
      metricsCache := new CachedMetric();
    }

    /** metrics_cache */
    function MetricsCache(): CachedMetric
      reads this
    {
      metricsCache
    }

    /** controller */
    function Controller(): T
      reads this
    {
      controller
    }
  }

  // -----------------------------------------------------------------------
  // CgroupInfo

  /** What the factory learns about one controller from /proc/cgroups,
      /proc/self/cgroup and /proc/self/mountinfo; a C null string is None. */
  class CgroupInfo {
    var name: Option<string>
    var hierarchyId: CInt
    var enabled: bool
    var dataComplete: bool
    var cgroupPath: Option<string>
    var rootMountPath: Option<string>
    var mountPath: Option<string>

    /** Nothing known yet: no name or paths, hierarchy id -1, disabled and
        incomplete. */
    constructor ()
      ensures name == None && hierarchyId == -1 && !enabled && !dataComplete
      ensures cgroupPath == None && rootMountPath == None && mountPath == None
    {
      name := None;
      hierarchyId := -1;
      enabled := false;
      dataComplete := false;
      cgroupPath := None;
      rootMountPath := None;
      mountPath := None;
    }
  }
}
