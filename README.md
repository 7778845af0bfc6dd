# Byte-order codecs, the cgroup metric cache and VMA tree values

This project models three small pieces of the OpenJDK sources in Dafny
and proves properties of them.

- **MergeStore** (`merge_store.dfy`). These are the static helpers of the
  `MergeStoreBench` micro-benchmark. They pack 32- and 64-bit Java integers
  into a `byte[]` in big- or little-endian order and read them back. The
  `R` variants combine this with `Integer.reverseBytes` and
  `Long.reverseBytes`. `putChar`, `putCharUB` and `putChars4` store UTF-16
  chars as byte pairs.
  - Java's `byte`, `char`, `int` and `long` are modelled as bit-vectors
    (`bv8`, `bv16`, `bv32`, `bv64`).
  - Readers are functions over the array contents.
  - Writers are methods that update an `array<bv8>` in place. Each
    writer's postcondition gives the whole new array as the old one with
    the encoded bytes stored in place, so every other index is unchanged.
  - The host byte order (`ByteOrder.nativeOrder()`) is a parameter.
    `HI_BYTE_SHIFT` is 8 on a little-endian host. So `putChar` stores a
    char high byte first there, the same bytes `putCharUB` stores.
- **CgroupSubsystem** (`cgroup_subsystem.dfy`). These are the shared
  declarations of HotSpot's Linux cgroup support:
  - the version, result-code and controller-index constants;
  - the factory's `is_cgroup_v1`, `is_cgroup_v2` and `is_valid_cgroup`
    selectors;
  - `tuple_format`;
  - the time-limited `CachedMetric`;
  - the `CachingCgroupController` wrapper, which owns such a cache;
  - the default state of a `CgroupInfo` record.

  To give the two `tuple_format` strings a meaning, the model parses them
  into `sscanf` directives. It then interprets those directives over an
  input line. Each reading of the monotonic clock `os::elapsed_counter()`
  is an explicit argument (`now`, and `setNow` for the later reading that
  `set_value` takes).
- **VmaTree** (`vmatree.dfy`). These are the value types of HotSpot's NMT
  virtual-memory-area tree:
  - the position comparator;
  - `StateType` and `statetype_to_string`;
  - `RegionData` and its `equals`;
  - the packed two-byte `IntervalState`;
  - `IntervalChange::is_noop`;
  - the zeroing `SummaryDiff` constructor;
  - the `reserve_mapping`, `commit_mapping` and `release_mapping`
    wrappers, modelled as the request they forward to `register_mapping`.
- **Wrappers** (`wrappers.dfy`) holds the `Option` type. It stands for C
  null pointers and for absent format widths.

## Model

| member | source | states |
|---|---|---|
| MergeStore.IntBytesB | test/micro/org/openjdk/bench/java/lang/MergeStoreBench.java:651-656 | the four bytes setIntB stores decode under getIntB to the value |
| MergeStore.GetIntB | test/micro/org/openjdk/bench/java/lang/MergeStoreBench.java:613-618 | getIntB, the big-endian int at the offset; IntBytesOfRead, IntBytesB and IntBRoundTrip show it is the exact inverse of setIntB's encoding |
| MergeStore.GetIntL | test/micro/org/openjdk/bench/java/lang/MergeStoreBench.java:628-633 | getIntL, the little-endian int at the offset; IntBytesOfRead, IntBytesL and IntLRoundTrip show it is the exact inverse of setIntL's encoding |
| MergeStore.IntBytesL | test/micro/org/openjdk/bench/java/lang/MergeStoreBench.java:666-671 | the four bytes setIntL stores decode under getIntL to the value |
| MergeStore.IntBytesLReversesB | test/micro/org/openjdk/bench/java/lang/MergeStoreBench.java:651-671 | setIntL stores setIntB's bytes in reverse order |
| MergeStore.IntReadsWindow | test/micro/org/openjdk/bench/java/lang/MergeStoreBench.java:613-633 | getIntB and getIntL depend only on the four bytes at the offset |
| MergeStore.IntBytesOfRead | test/micro/org/openjdk/bench/java/lang/MergeStoreBench.java:613-633 | re-encoding what getIntB or getIntL read gives back the same four bytes, so the decoders are injective and invert the encoders |
| MergeStore.IntBRoundTrip | test/micro/org/openjdk/bench/java/lang/MergeStoreBench.java:651-656 | getIntB at the offset returns the value setIntB stored there, whatever the array held |
| MergeStore.IntLRoundTrip | test/micro/org/openjdk/bench/java/lang/MergeStoreBench.java:666-671 | getIntL at the offset returns the value setIntL stored there |
| MergeStore.SetIntB | test/micro/org/openjdk/bench/java/lang/MergeStoreBench.java:651-656 | the new array is the old one with the value's big-endian bytes at offset..offset+3, everything else unchanged; getIntB reads the value back |
| MergeStore.SetIntL | test/micro/org/openjdk/bench/java/lang/MergeStoreBench.java:666-671 | the new array is the old one with the little-endian bytes at offset..offset+3; getIntL reads the value back |
| MergeStore.ReverseBytes | test/micro/org/openjdk/bench/java/lang/MergeStoreBench.java:635-637 | the big-endian bytes of reverseBytes(i) are the little-endian bytes of i |
| MergeStore.ReverseBytesInvolutive | test/micro/org/openjdk/bench/java/lang/MergeStoreBench.java:681-694 | reversing the bytes twice gives the int back |
| MergeStore.GetIntRB | test/micro/org/openjdk/bench/java/lang/MergeStoreBench.java:635-637 | getIntRB, reverseBytes of getIntB, equals getIntL |
| MergeStore.GetIntRL | test/micro/org/openjdk/bench/java/lang/MergeStoreBench.java:643-645 | getIntRL, reverseBytes of getIntL, equals getIntB |
| MergeStore.ReversedLittleIsBig | test/micro/org/openjdk/bench/java/lang/MergeStoreBench.java:681-694 | the little-endian bytes of reverseBytes(v) are v's big-endian bytes, and the other way round |
| MergeStore.SetIntRL | test/micro/org/openjdk/bench/java/lang/MergeStoreBench.java:681-684 | setIntRL leaves the array exactly as setIntB does |
| MergeStore.SetIntRB | test/micro/org/openjdk/bench/java/lang/MergeStoreBench.java:691-694 | setIntRB leaves the array exactly as setIntL does |
| MergeStore.IntReversedRoundTrip | test/micro/org/openjdk/bench/java/lang/MergeStoreBench.java:635-645 | getIntRB reads back what setIntRB stored, and getIntRL what setIntRL stored |
| MergeStore.IntBytesBUAsWritten | test/micro/org/openjdk/bench/java/lang/MergeStoreBench.java:658-664 | the bytes setIntBU stores as written are the big-endian bytes with the middle two swapped |
| MergeStore.SetIntBUAsWritten | test/micro/org/openjdk/bench/java/lang/MergeStoreBench.java:658-664 | the as-written setIntBU stores those swapped bytes at offset..offset+3, everything else unchanged |
| MergeStore.SetIntBUAsWrittenSwapsMiddleBytes | test/micro/org/openjdk/bench/java/lang/MergeStoreBench.java:658-664 | storing 0x00010200 with the as-written setIntBU reads back as 0x00020100, so some value does not round-trip |
| MergeStore.SetIntBUAsWrittenAgreesIff | test/micro/org/openjdk/bench/java/lang/MergeStoreBench.java:658-664 | the as-written bytes equal the big-endian ones exactly when the value's two middle bytes are equal |
| MergeStore.SetIntBU | test/micro/org/openjdk/bench/java/lang/MergeStoreBench.java:658-664 | the corrected setIntBU stores the same bytes as setIntB and round-trips with the big-endian read |
| MergeStore.LongBytesB | test/micro/org/openjdk/bench/java/lang/MergeStoreBench.java:763-772 | the eight bytes setLongB stores decode under getLongB to the value |
| MergeStore.GetLongB | test/micro/org/openjdk/bench/java/lang/MergeStoreBench.java:701-710 | getLongB, the big-endian long at the offset; LongBytesOfRead, LongBytesB and LongBRoundTrip show it inverts setLongB's encoding |
| MergeStore.GetLongL | test/micro/org/openjdk/bench/java/lang/MergeStoreBench.java:724-733 | getLongL, the little-endian long at the offset; LongBytesOfRead, LongBytesL and LongLRoundTrip show it inverts setLongL's encoding |
| MergeStore.LongBytesL | test/micro/org/openjdk/bench/java/lang/MergeStoreBench.java:774-783 | the eight bytes setLongL stores decode under getLongL to the value |
| MergeStore.LongBytesLReversesB | test/micro/org/openjdk/bench/java/lang/MergeStoreBench.java:763-783 | setLongL stores setLongB's bytes in reverse order |
| MergeStore.ReverseBytesLongInvolutive | test/micro/org/openjdk/bench/java/lang/MergeStoreBench.java:785-798 | reversing the bytes of a long twice gives it back |
| MergeStore.ReverseBytesLong | test/micro/org/openjdk/bench/java/lang/MergeStoreBench.java:785-788 | Long.reverseBytes as setLongRL and setLongRB apply it; ReversedLongLittleIsBig shows its little-endian bytes are the input's big-endian bytes, and ReverseBytesLongInvolutive that it is its own inverse |
| MergeStore.LongReadsWindow | test/micro/org/openjdk/bench/java/lang/MergeStoreBench.java:701-733 | getLongB and getLongL depend only on the eight bytes at the offset |
| MergeStore.LongBytesOfRead | test/micro/org/openjdk/bench/java/lang/MergeStoreBench.java:701-733 | re-encoding what getLongB or getLongL read gives back the same eight bytes |
| MergeStore.LongBRoundTrip | test/micro/org/openjdk/bench/java/lang/MergeStoreBench.java:763-772 | getLongB at the offset returns the value setLongB stored there |
| MergeStore.LongLRoundTrip | test/micro/org/openjdk/bench/java/lang/MergeStoreBench.java:774-783 | getLongL at the offset returns the value setLongL stored there |
| MergeStore.LongReversedReadersDoNotReverse | test/micro/org/openjdk/bench/java/lang/MergeStoreBench.java:747-761 | getLongRB and getLongRL reverse nothing: they round-trip with setLongB and setLongL, and return reverseBytes(value) after setLongL and setLongB |
| MergeStore.LongReversedPairDoesNotRoundTrip | test/micro/org/openjdk/bench/java/lang/MergeStoreBench.java:747-749 | the bytes setLongRB stores for 1 read back through getLongRB as 1 << 56 |
| MergeStore.GetLongRB | test/micro/org/openjdk/bench/java/lang/MergeStoreBench.java:747-749 | getLongRB as written returns getLongB unchanged; LongReversedReadersDoNotReverse states what it reads back after each writer |
| MergeStore.GetLongRL | test/micro/org/openjdk/bench/java/lang/MergeStoreBench.java:755-757 | getLongRL as written returns getLongL unchanged; LongReversedReadersDoNotReverse states what it reads back after each writer |
| MergeStore.GetLongRBIntended | test/micro/org/openjdk/bench/java/lang/MergeStoreBench.java:747-749 | getLongRB with the byte reversal the R suffix names: reverseBytes of the big-endian read, proved equal to the little-endian read |
| MergeStore.GetLongRLIntended | test/micro/org/openjdk/bench/java/lang/MergeStoreBench.java:755-757 | getLongRL with the byte reversal: reverseBytes of the little-endian read, proved equal to the big-endian read |
| MergeStore.LongReversedIntendedRoundTrip | test/micro/org/openjdk/bench/java/lang/MergeStoreBench.java:747-798 | the corrected readers return the value setLongRB and setLongRL stored |
| MergeStore.SetLongB | test/micro/org/openjdk/bench/java/lang/MergeStoreBench.java:763-772 | the new array is the old one with the big-endian bytes at offset..offset+7; getLongB reads the value back |
| MergeStore.SetLongL | test/micro/org/openjdk/bench/java/lang/MergeStoreBench.java:774-783 | the new array is the old one with the little-endian bytes at offset..offset+7; getLongL reads the value back |
| MergeStore.ReversedLongLittleIsBig | test/micro/org/openjdk/bench/java/lang/MergeStoreBench.java:785-798 | the little-endian bytes of reverseBytes(v) are v's big-endian bytes, and the other way round |
| MergeStore.SetLongRL | test/micro/org/openjdk/bench/java/lang/MergeStoreBench.java:785-788 | setLongRL leaves the array exactly as setLongB does |
| MergeStore.SetLongRB | test/micro/org/openjdk/bench/java/lang/MergeStoreBench.java:795-798 | setLongRB leaves the array exactly as setLongL does |
| MergeStore.CharBytesUB | test/micro/org/openjdk/bench/java/lang/MergeStoreBench.java:865-869 | putCharUB's two bytes are the high then the low byte of the char |
| MergeStore.HiByteShift | test/micro/org/openjdk/bench/java/lang/MergeStoreBench.java:48-58 | HI_BYTE_SHIFT: 8 on a little-endian host, 0 otherwise; CharBytesOrder states which byte putChar then stores first |
| MergeStore.LoByteShift | test/micro/org/openjdk/bench/java/lang/MergeStoreBench.java:48-58 | LO_BYTE_SHIFT: 0 on a little-endian host, 8 otherwise; CharBytesOrder states which byte putChar then stores second |
| MergeStore.CharBytes | test/micro/org/openjdk/bench/java/lang/MergeStoreBench.java:859-863 | the two bytes putChar stores, a pair of length 2; CharBytesOrder shows it is the high-then-low pair on a little-endian host and the low-then-high pair on a big-endian one |
| MergeStore.CharBytesOrder | test/micro/org/openjdk/bench/java/lang/MergeStoreBench.java:48-58 | with the shifts the static initialiser picks, putChar stores the high byte first on a little-endian host and the low byte first on a big-endian one |
| MergeStore.Chars4Bytes | test/micro/org/openjdk/bench/java/lang/MergeStoreBench.java:837-842 | the eight bytes putChars4 stores are each char's pair, in char order |
| MergeStore.PutChar | test/micro/org/openjdk/bench/java/lang/MergeStoreBench.java:859-863 | putChar changes exactly val[2*index] and val[2*index+1], storing the host-order pair |
| MergeStore.PutCharUB | test/micro/org/openjdk/bench/java/lang/MergeStoreBench.java:865-869 | putCharUB changes exactly bytes 2*offset and 2*offset+1, high byte first |
| MergeStore.PutChars4 | test/micro/org/openjdk/bench/java/lang/MergeStoreBench.java:837-842 | putChars4 changes exactly bytes 2*offset..2*offset+7, which hold the four chars' pairs in order |
| CgroupSubsystem.ControllerIndicesFillTable | src/hotspot/os/linux/cgroupSubsystem_linux.hpp:64-70 | the five controller indices are pairwise distinct and all lie below CG_INFO_LENGTH |
| CgroupSubsystem.ValidCgroupIsExactlyOneVersion | src/hotspot/os/linux/cgroupSubsystem_linux.hpp:251-261 | is_valid_cgroup holds exactly when exactly one of is_cgroup_v1 and is_cgroup_v2 holds |
| CgroupSubsystem.InvalidCodesNameNoVersion | src/hotspot/os/linux/cgroupSubsystem_linux.hpp:57-62 | the codes INVALID_CGROUPS_V2 to INVALID_CGROUPS_GENERIC are neither valid nor version 1 nor version 2 |
| CgroupSubsystem.IsCgroupV2 | src/hotspot/os/linux/cgroupSubsystem_linux.hpp:251-253 | is_cgroup_v2: the flags are CGROUPS_V2; ValidCgroupIsExactlyOneVersion and InvalidCodesNameNoVersion relate it to the other selectors and codes |
| CgroupSubsystem.IsValidCgroup | src/hotspot/os/linux/cgroupSubsystem_linux.hpp:256-258 | is_valid_cgroup: the flags are CGROUPS_V1 or CGROUPS_V2; ValidCgroupIsExactlyOneVersion shows it holds exactly when one version selector does |
| CgroupSubsystem.IsCgroupV1 | src/hotspot/os/linux/cgroupSubsystem_linux.hpp:259-261 | is_cgroup_v1: the flags are CGROUPS_V1; ValidCgroupIsExactlyOneVersion and InvalidCodesNameNoVersion relate it to the others |
| CgroupSubsystem.TupleFormat | src/hotspot/os/linux/cgroupSubsystem_linux.hpp:116-122 | tuple_format: "%1023s %*s" for FIRST and "%*s %1023s" for SECOND; FirstFormatDirectives, SecondFormatDirectives and the Tuple*Field lemmas give their meaning as sscanf formats |
| CgroupSubsystem.DigitCount | src/hotspot/os/linux/cgroupSubsystem_linux.hpp:116-122 | DigitCount gives the length of the maximal run of leading decimal digits, as read from a format width |
| CgroupSubsystem.SkipSpaces | src/hotspot/os/linux/cgroupSubsystem_linux.hpp:116-122 | a blank directive or an `s` conversion drops exactly the leading white space and keeps the rest |
| CgroupSubsystem.Field | src/hotspot/os/linux/cgroupSubsystem_linux.hpp:116-122 | an `s` conversion consumes the longest prefix free of white space, cut at the field width |
| CgroupSubsystem.FirstFormatDirectives | src/hotspot/os/linux/cgroupSubsystem_linux.hpp:116-118 | tuple_format(FIRST) parses to an assigned width-1023 `s` conversion, then a blank, then a suppressed `s` conversion |
| CgroupSubsystem.SecondFormatDirectives | src/hotspot/os/linux/cgroupSubsystem_linux.hpp:116-119 | tuple_format(SECOND) parses to a suppressed `s` conversion, then a blank, then an assigned width-1023 `s` conversion |
| CgroupSubsystem.TupleFirstSelectsFirstField | src/hotspot/os/linux/cgroupSubsystem_linux.hpp:116-122 | on a line of two white-space-separated tokens, tuple_format(FIRST) assigns exactly the first token when it has at most 1023 characters |
| CgroupSubsystem.TupleSecondSelectsSecondField | src/hotspot/os/linux/cgroupSubsystem_linux.hpp:116-122 | on such a line, tuple_format(SECOND) assigns exactly the second token when it has at most 1023 characters |
| CgroupSubsystem.TupleFormatOnSingleField | src/hotspot/os/linux/cgroupSubsystem_linux.hpp:116-122 | on a line with a single token, FIRST assigns that token while SECOND assigns nothing |
| CgroupSubsystem.CachedMetric.constructor | src/hotspot/os/linux/cgroupSubsystem_linux.hpp:132-135 | a new cache holds -1 with deadline min_jlong, so it needs a re-read at every clock value above min_jlong |
| CgroupSubsystem.CachedMetric.ShouldCheckMetric | src/hotspot/os/linux/cgroupSubsystem_linux.hpp:136-138 | should_check_metric at clock now: now is past the deadline; as a function it changes no field; the constructor and SetValue state when it holds |
| CgroupSubsystem.CachedMetric.Value | src/hotspot/os/linux/cgroupSubsystem_linux.hpp:139 | value(): the cached metric, changing no field; SetValue and CachedRead state what it holds |
| CgroupSubsystem.CachedMetric.SetValue | src/hotspot/os/linux/cgroupSubsystem_linux.hpp:140-148 | after set_value(v, t) at clock now, value() is v and should_check_metric at clock c holds exactly when c > now + t |
| CgroupSubsystem.CachedRead | src/hotspot/os/linux/cgroupSubsystem_linux.hpp:136-148 | while the cache is fresh at the clock reading now, a read returns the cached value and changes nothing; once it is stale, the read returns the new reading and caches it until setNow + timeout, where setNow is the later clock reading set_value takes |
| CgroupSubsystem.ReadTwice | src/hotspot/os/linux/cgroupSubsystem_linux.hpp:136-148 | a second read within the grace period the first read started returns the first read's value whatever the controller now reports; one within the period the first read found returns the old cached value; one after the deadline set at setNow0 + timeout returns the new reading |
| CgroupSubsystem.CachingCgroupController.constructor | src/hotspot/os/linux/cgroupSubsystem_linux.hpp:158-161 | stores the controller and a freshly allocated cache holding -1 with deadline min_jlong |
| CgroupSubsystem.CachingCgroupController.MetricsCache | src/hotspot/os/linux/cgroupSubsystem_linux.hpp:163 | metrics_cache(): the cache the constructor allocated |
| CgroupSubsystem.CachingCgroupController.Controller | src/hotspot/os/linux/cgroupSubsystem_linux.hpp:164 | controller(): the controller given to the constructor, as its ensures states |
| CgroupSubsystem.CgroupInfo.constructor | src/hotspot/os/linux/cgroupSubsystem_linux.hpp:233-241 | a new record has no name and no paths, hierarchy id -1, and is neither enabled nor complete |
| VmaTree.Cmp | src/hotspot/share/nmt/vmatree.hpp:48-53 | cmp returns -1, 0 or 1, each exactly when a < b, a == b or a > b |
| VmaTree.CmpAntisymmetric | src/hotspot/share/nmt/vmatree.hpp:48-53 | cmp(a, b) == -cmp(b, a) |
| VmaTree.CmpTransitive | src/hotspot/share/nmt/vmatree.hpp:48-53 | the non-strict and strict comparisons are transitive |
| VmaTree.Ordinal | src/hotspot/share/nmt/vmatree.hpp:56 | a state type's byte is at most 3, and it is 3 exactly for LAST |
| VmaTree.FromOrdinal | src/hotspot/share/nmt/vmatree.hpp:103-105 | the state read back from a byte 0..3 has that byte as its ordinal |
| VmaTree.OrdinalRoundTrip | src/hotspot/share/nmt/vmatree.hpp:98-105 | storing a state type as a byte and casting it back gives the same state |
| VmaTree.StateTypeToString | src/hotspot/share/nmt/vmatree.hpp:64-67 | Reserved, Committed and Released take entries 0, 1 and 2 of the string table, the enum's declaration order; StateTypeNamesDistinct shows distinct table entries give distinct names |
| VmaTree.StateTypeNamesDistinct | src/hotspot/share/nmt/vmatree.hpp:59-67 | with a table of distinct names, two state types get the same name exactly when they are the same type |
| VmaTree.DefaultRegionData | src/hotspot/share/nmt/vmatree.hpp:74 | the default region data has the default stack index and mtNone |
| VmaTree.Equals | src/hotspot/share/nmt/vmatree.hpp:79-82 | RegionData::equals: same flag and equal stack indices; EqualsIsEquality shows it is exactly value equality |
| VmaTree.EqualsIsEquality | src/hotspot/share/nmt/vmatree.hpp:79-82 | equals, which compares the flag and the stack index, holds exactly when the two values are equal |
| VmaTree.IntervalState.Type | src/hotspot/share/nmt/vmatree.hpp:103-105 | type() is the state whose byte is the first packed byte |
| VmaTree.IntervalState.Flag | src/hotspot/share/nmt/vmatree.hpp:107-109 | flag() reads back the second packed byte; NewIntervalState shows it returns the flag the state was built with |
| VmaTree.IntervalState.Regiondata | src/hotspot/share/nmt/vmatree.hpp:111-113 | regiondata() agrees with stack() and flag(); NewIntervalState shows it returns exactly the region data the state was built from |
| VmaTree.IntervalState.Stack | src/hotspot/share/nmt/vmatree.hpp:115-117 | stack(): the stored stack index; NewIntervalState shows it returns the stack index the state was built with |
| VmaTree.DefaultIntervalState | src/hotspot/share/nmt/vmatree.hpp:95 | the default state's bytes encode a valid type and flag |
| VmaTree.DefaultIntervalStateIsReserved | src/hotspot/share/nmt/vmatree.hpp:95 | a default IntervalState reads as Reserved with flag 0 and the default stack, so its region data is not the default RegionData, whose flag is mtNone |
| VmaTree.NewIntervalState | src/hotspot/share/nmt/vmatree.hpp:96-101 | the constructor requires mtNone for Released; the state it builds decodes back to exactly the type, flag, stack and region data it was given |
| VmaTree.NewIntervalStateInjective | src/hotspot/share/nmt/vmatree.hpp:96-101 | two constructed states are equal exactly when built from the same type and region data |
| VmaTree.ValidStateIsConstructed | src/hotspot/share/nmt/vmatree.hpp:96-117 | every valid state that obeys the Released rule is the construction of its own type and region data |
| VmaTree.IsNoopIffSameState | src/hotspot/share/nmt/vmatree.hpp:126-129 | is_noop holds exactly when the incoming and outgoing states are the same value |
| VmaTree.IntervalChange.IsNoop | src/hotspot/share/nmt/vmatree.hpp:126-129 | is_noop: same type and equal region data; IsNoopIffSameState and IsNoopOfConstructed characterise it |
| VmaTree.IsNoopOfConstructed | src/hotspot/share/nmt/vmatree.hpp:126-129 | for constructed states, is_noop holds exactly when both were built from the same type and region data |
| VmaTree.SummaryDiff.constructor | src/hotspot/share/nmt/vmatree.hpp:163-167 | the diff has one entry per MEMFLAGS value, and every reserve and commit delta is zero |
| VmaTree.EndPosition | src/hotspot/share/nmt/vmatree.hpp:172-182 | from + sz in size_t arithmetic: the exact sum without overflow, otherwise the sum minus 2^64, which lies below from |
| VmaTree.ReserveMapping | src/hotspot/share/nmt/vmatree.hpp:172-174 | registers from to from + sz as Reserved with the caller's region data |
| VmaTree.CommitMapping | src/hotspot/share/nmt/vmatree.hpp:176-178 | registers from to from + sz as Committed with the caller's region data |
| VmaTree.ReleaseMapping | src/hotspot/share/nmt/vmatree.hpp:180-182 | registers from to from + sz as Released with empty_regiondata |
| VmaTree.MappingCoversRange | src/hotspot/share/nmt/vmatree.hpp:172-182 | without overflow each wrapper's range holds exactly the positions in [from, from + sz); with overflow it holds none; the three wrappers cover the same positions |
| VmaTree.ReleaseMappingBuildsState | src/hotspot/share/nmt/vmatree.hpp:180-182 | the region data of a release carries mtNone, so it meets the IntervalState rule for Released, and it builds the Released state with the default stack |
| VmaTree.ReserveAndCommitDifferOnlyInState | src/hotspot/share/nmt/vmatree.hpp:172-178 | reserving and committing the same range with the same data differ only in the state |

## Left out

- The JMH benchmark bodies (the `@Benchmark` loops, `Blackhole`, `Random` setup) are measurement harness, not logic.
- The `Unsafe` and `VarHandle` variants (`getIntBU`, `setIntLU`, `getLongBU`, `setLongBU`, `putChars4UC`, `putChars4UB` and the rest) call JVM intrinsics. They are not modelled. The two exceptions are setIntBU and putCharUB, which store single bytes with `UNSAFE.putByte(array, BASE + i, b)`; the model reads that call as `array[i] = b`.
- Out-of-bounds offsets: the array-indexing writers and readers make Java throw `ArrayIndexOutOfBoundsException`, possibly after some of the bytes are already stored. The model requires the offset range to lie inside the array instead, which the benchmark's callers always keep. `Unsafe.putByte` does no bounds check, so for setIntBU and putCharUB an out-of-range offset would write past the array without throwing; there the `requires` of `SetIntBUAsWritten`, `SetIntBU` and `PutCharUB` rules out that unchecked write, not an exception. `putChar` and `putCharUB` double the index with a 32-bit `<< 1`, which wraps: an index of 0x8000_0001 becomes 2 and stores at bytes 2 and 3 without throwing. The requirement `0 <= 2 * index` excludes such indices, which no caller passes.
- `Integer.reverseBytes` and `Long.reverseBytes` belong to `java.lang`, which is not part of this model. `ReverseBytes` and `ReverseBytesLong` restate their published bit formulas.
- MergeStore.ReverseBytesLong: it carries no ensures of its own. Its meaning is stated by `ReversedLongLittleIsBig` and `ReverseBytesLongInvolutive`.
- `ByteOrder.nativeOrder()` is a parameter rather than a property of the running host.
- The I/O of `cgroupSubsystem_linux.hpp` is not modelled: `read_number`, `read_string`, `read_from_file`, the `read_numerical_*` readers, `set_path` and the `CONTAINER_READ_*_CHECKED` macros. `tuple_format`'s strings are instead given a meaning through a small interpreter of the `sscanf` directives they use (white space, `%s` with an optional `*` and width). Other conversions, other format characters and the 1024-byte destination buffer are not modelled.
- `tuple_format`'s `return nullptr` after the switch cannot be reached for a `TupleValue` and has no counterpart.
- The virtual controller and subsystem methods are declarations only and are not modelled. The same goes for the factory's `create` and `determine_type`, which live in `cgroupSubsystem_linux.cpp`, not part of this model.
- The callers of `CachedMetric` are in `cgroupSubsystem_linux.cpp`, which is not part of this model. `CachedRead` and `ReadTwice` model the read protocol those callers follow: should_check_metric, then the controller read, then set_value. The two clock readings are separate parameters (`now`, then `setNow`), and the clock is assumed not to go backwards. `ReadTwice` also assumes that the cache's current deadline is at most `now0 + timeout`, that is it was last filled no later than the first read and with the same timeout.
- CgroupSubsystem.CachedMetric.SetValue: it requires `now + timeout` to fit in a jlong. The C++ addition can overflow, and that case is not modelled.
- The `volatile` qualifiers of `CachedMetric` and any concurrent access are not modelled; the cache is sequential.
- `register_mapping`, the `TreapCHeap` tree and `visit_in_order` are not shown. The three wrappers are modelled as the `MappingRequest` they pass to `register_mapping`.
- The contents of `statetype_strings` are defined in `vmatree.cpp`, which is not part of this model. `StateTypeToString` takes the table as a parameter.
- `empty_regiondata` is defined in `vmatree.cpp` too. It is modelled as the default `RegionData`: the default stack index and mtNone.
- `NativeCallStackStorage::StackIndex` is an opaque type whose `equals` is its equality.
- `MEMFLAGS` is declared elsewhere. The model assumes `mt_number_of_types` is 28 and `mtNone` is 27, the last value. Most properties depend only on mtNone being a valid flag. The exception is the last ensures of `DefaultIntervalStateIsReserved`: the default state's region data differs from the default RegionData, which holds only because mtNone is not 0.
- VmaTree.IntervalState.Type: it requires `Valid()`, that is the packed bytes hold a state type and a flag, as every constructor leaves them. A C++ `static_cast` to the enum would accept any byte.
- `IntervalState` is a value (a `datatype`). Its constructor's two byte stores are written as one value construction. `AddressState` is not modelled.

## Findings

| source | as written | input that shows it | evidently intended | confidence | as-written member | corrected member |
|---|---|---|---|---|---|---|
| test/micro/org/openjdk/bench/java/lang/MergeStoreBench.java:658-664 | setIntBU stores `value >> 8` at offset + 1 and `value >> 16` at offset + 2 | storing 0x00010200 and reading it back with getIntBU (or getIntB) gives 0x00020100 | the big-endian byte order of setIntB: `value >> 16` at offset + 1, `value >> 8` at offset + 2 | not executed | MergeStore.SetIntBUAsWrittenSwapsMiddleBytes | MergeStore.SetIntBU |
| test/micro/org/openjdk/bench/java/lang/MergeStoreBench.java:747-761 | getLongRB and getLongRL return getLongB and getLongL unchanged, with no Long.reverseBytes, although the R suffix means ReverseBytes and getIntRB/getIntRL do reverse | storing 1 with setLongRB and reading it back with getLongRB gives 1 << 56 | getLongRB returns reverseBytes(getLongB(...)) and getLongRL returns reverseBytes(getLongL(...)), so both round-trip with their R writers | not executed | MergeStore.LongReversedPairDoesNotRoundTrip | MergeStore.GetLongRBIntended |
