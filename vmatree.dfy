/** The value types of HotSpot's virtual-memory-area tree (NMT): positions
    and their comparator, state types, region data, the packed interval
    state, interval changes, summary diffs and the three mapping wrappers
    over register_mapping. */
module VmaTree {

  // -----------------------------------------------------------------------
  // Positions

  const SizeLimit: int := 0x1_0000_0000_0000_0000

  /** A position in memory (size_t). */
  type Position = x: int | 0 <= x < SizeLimit

  /** PositionComparator::cmp: the three-way comparison the tree is ordered
      by. */
  function Cmp(a: Position, b: Position): (r: int)
    ensures r == -1 <==> a < b
    ensures r == 0 <==> a == b
    ensures r == 1 <==> a > b
    ensures r == -1 || r == 0 || r == 1
  {
    if a < b then -1
    else if a == b then 0
    else assert a > b; 1
  }

  /** Swapping the operands negates the comparison. */
  lemma CmpAntisymmetric(a: Position, b: Position)
    ensures Cmp(a, b) == -Cmp(b, a)
  {
  }

  /** The comparison is transitive, so it orders the tree's keys. */
  lemma CmpTransitive(a: Position, b: Position, c: Position)
    ensures Cmp(a, b) <= 0 && Cmp(b, c) <= 0 ==> Cmp(a, c) <= 0
    ensures Cmp(a, b) < 0 && Cmp(b, c) < 0 ==> Cmp(a, c) < 0
  {
  }

  // -----------------------------------------------------------------------
  // State types

  /** An unsigned byte (uint8_t). */
  type U8 = x: int | 0 <= x < 256

  /** StateType, an enum class over uint8_t; Last (LAST) counts the others. */
  datatype StateType = Reserved | Committed | Released | Last

  /** static_cast<uint8_t>(type). */
  function Ordinal(t: StateType): (b: U8)
    ensures b <= 3
    ensures b == 3 <==> t == Last
  {
    match t
    case Reserved => 0
    case Committed => 1
    case Released => 2
    case Last => 3
  }

  /** static_cast<StateType>(b) for the bytes the enum names. */
  function FromOrdinal(b: U8): (t: StateType)
    requires b <= 3
    ensures Ordinal(t) == b
  {
    if b == 0 then Reserved
    else if b == 1 then Committed
    else if b == 2 then Released
    else Last
  }

  /** The cast to a byte loses nothing. */
  lemma OrdinalRoundTrip(t: StateType)
    ensures FromOrdinal(Ordinal(t)) == t
  {
  }

  /** The number of entries in statetype_strings: one per state before
      LAST. */
  const StateTypeCount: nat := 3

  /** statetype_to_string: the name stored for `t` in the string table,
      which is given as a parameter. */
  function StateTypeToString(strings: seq<string>, t: StateType): (name: string)
    requires |strings| == StateTypeCount
    requires t != Last
    ensures t == Reserved ==> name == strings[0]
    ensures t == Committed ==> name == strings[1]
    ensures t == Released ==> name == strings[2]
  {
    strings[Ordinal(t)]
  }

  /** With a table of distinct names, each state type gets its own name. */
  lemma StateTypeNamesDistinct(strings: seq<string>, t1: StateType, t2: StateType)
    requires |strings| == StateTypeCount
    requires t1 != Last && t2 != Last
    requires forall i, j :: 0 <= i < j < |strings| ==> strings[i] != strings[j]
    ensures StateTypeToString(strings, t1) == StateTypeToString(strings, t2) <==> t1 == t2
  {
    var i, j := Ordinal(t1), Ordinal(t2);
    if i < j {
      assert strings[i] != strings[j];
    } else if j < i {
      assert strings[j] != strings[i];
    } else {
      OrdinalRoundTrip(t1);
      OrdinalRoundTrip(t2);
    }
  }

  // -----------------------------------------------------------------------
  // Region data

  /** NativeCallStackStorage::StackIndex, compared by its own equality. */
  type StackIndex(==, 0)

  /** A default-constructed StackIndex. */
  const DefaultStackIndex: StackIndex

  /** NativeCallStackStorage::StackIndex::equals. */
  predicate StackIndexEquals(a: StackIndex, b: StackIndex)
  {
    a == b
  }

  /** mt_number_of_types: the number of MEMFLAGS values. */
  const MtNumberOfTypes: nat := 28

  /** A MEMFLAGS value (an enum class over uint8_t). */
  type MemFlag = x: int | 0 <= x < MtNumberOfTypes

  /** mtNone, the last MEMFLAGS value. */
  const MtNone: MemFlag := 27

  /** Each point carries a call stack and a memory flag. */
  datatype RegionData = RegionData(stackIdx: StackIndex, flag: MemFlag)

  /** The default RegionData: the default stack index and mtNone. */
  function DefaultRegionData(): (d: RegionData)
    ensures d.flag == MtNone && d.stackIdx == DefaultStackIndex
  {
    RegionData(DefaultStackIndex, MtNone)
  }

  /** empty_regiondata, defined as the default region data. */
  const EmptyRegionData: RegionData := DefaultRegionData()

  /** RegionData::equals: same flag and equal stack indices. */
  predicate Equals(a: RegionData, b: RegionData)
  {
    a.flag == b.flag && StackIndexEquals(a.stackIdx, b.stackIdx)
  }

  /** equals is exactly equality of the two fields, hence of the values. */
  lemma EqualsIsEquality(a: RegionData, b: RegionData)
    ensures Equals(a, b) <==> a == b
  {
  }

  // -----------------------------------------------------------------------
  // Interval states

  /** IntervalState: the state type and the flag packed as two bytes, and
      the stack index. */
  datatype IntervalState = IntervalState(typeByte: U8, flagByte: U8, sidx: StackIndex)
  {
    /** The bytes hold a state type and a flag, as every constructor
        leaves them. */
    predicate Valid()
    {
      typeByte <= 3 && flagByte < MtNumberOfTypes
    }

    /** type(): the first byte read back as a StateType. */
    function Type(): (t: StateType)
      requires Valid()
      ensures Ordinal(t) == typeByte
    {
      FromOrdinal(typeByte)
    }

    /** flag(): the second byte read back as a MEMFLAGS value. */
    function Flag(): MemFlag
      requires Valid()
    {
      flagByte
    }

    /** regiondata(): the stack index with the flag. */
    function Regiondata(): (d: RegionData)
      requires Valid()
      ensures d.stackIdx == Stack() && d.flag == Flag()
    {
      RegionData(sidx, Flag())
    }

    /** stack(): the stack index. */
    function Stack(): StackIndex
    {
      sidx
    }
  }

  /** The default IntervalState: both bytes zero, the default stack. */
  function DefaultIntervalState(): (s: IntervalState)
    ensures s.Valid()
  {
    IntervalState(0, 0, DefaultStackIndex)
  }

  /** A default IntervalState reads as Reserved with flag 0, which is not
      mtNone: its region data differs from the default RegionData. */
  lemma DefaultIntervalStateIsReserved()
    ensures DefaultIntervalState().Type() == Reserved
    ensures DefaultIntervalState().Flag() == 0
    ensures DefaultIntervalState().Stack() == DefaultStackIndex
    ensures !Equals(DefaultIntervalState().Regiondata(), DefaultRegionData())
  {
  }

  /** IntervalState(type, data); a Released state must carry mtNone. */
  function NewIntervalState(t: StateType, data: RegionData): (s: IntervalState)
    requires t == Released ==> data.flag == MtNone
    ensures s.Valid()
    ensures s.Type() == t && s.Flag() == data.flag && s.Stack() == data.stackIdx
    ensures s.Regiondata() == data
  {
    IntervalState(Ordinal(t), data.flag, data.stackIdx)
  }

  /** Two constructed states are equal exactly when they were built from
      the same type and region data. */
  lemma NewIntervalStateInjective(t1: StateType, d1: RegionData, t2: StateType, d2: RegionData)
    requires t1 == Released ==> d1.flag == MtNone
    requires t2 == Released ==> d2.flag == MtNone
    ensures NewIntervalState(t1, d1) == NewIntervalState(t2, d2) <==> t1 == t2 && d1 == d2
  {
    if NewIntervalState(t1, d1) == NewIntervalState(t2, d2) {
      OrdinalRoundTrip(t1);
      OrdinalRoundTrip(t2);
    }
  }

  /** Every valid state is the construction of its own type and region
      data, except a Released state whose flag is not mtNone, which no
      constructor produces. */
  lemma ValidStateIsConstructed(s: IntervalState)
    requires s.Valid()
    requires s.Type() == Released ==> s.Flag() == MtNone
    ensures NewIntervalState(s.Type(), s.Regiondata()) == s
  {
  }

  // -----------------------------------------------------------------------
  // Interval changes

  /** IntervalChange: the state before and after a point. */
  datatype IntervalChange = IntervalChange(incoming: IntervalState, outgoing: IntervalState)
  {
    /** is_noop(): the point changes neither the type nor the region data. */
    predicate IsNoop()
      requires incoming.Valid() && outgoing.Valid()
    {
      incoming.Type() == outgoing.Type() && Equals(incoming.Regiondata(), outgoing.Regiondata())
    }
  }

  /** A change is a no-op exactly when its two states are the same value. */
  lemma IsNoopIffSameState(c: IntervalChange)
    requires c.incoming.Valid() && c.outgoing.Valid()
    ensures c.IsNoop() <==> c.incoming == c.outgoing
  {
    if c.IsNoop() {
      assert Ordinal(c.incoming.Type()) == Ordinal(c.outgoing.Type());
      EqualsIsEquality(c.incoming.Regiondata(), c.outgoing.Regiondata());
    }
  }

  /** A change between constructed states is a no-op exactly when both
      were built from the same type and region data. */
  lemma IsNoopOfConstructed(t1: StateType, d1: RegionData, t2: StateType, d2: RegionData)
    requires t1 == Released ==> d1.flag == MtNone
    requires t2 == Released ==> d2.flag == MtNone
    ensures IntervalChange(NewIntervalState(t1, d1), NewIntervalState(t2, d2)).IsNoop() <==> t1 == t2 && d1 == d2
  {
    IsNoopIffSameState(IntervalChange(NewIntervalState(t1, d1), NewIntervalState(t2, d2)));
    NewIntervalStateInjective(t1, d1, t2, d2);
  }

  // -----------------------------------------------------------------------
  // Summary diffs

  const Int64Limit: int := 0x8000_0000_0000_0000

  /** int64_t. */
  type Int64 = x: int | -Int64Limit <= x < Int64Limit

  /** SingleDiff: the reserved and committed deltas of one flag. */
  datatype SingleDiff = SingleDiff(reserve: Int64, commit: Int64)

  /** SummaryDiff: one SingleDiff per MEMFLAGS value. */
  class SummaryDiff {
    const flag: array<SingleDiff>

    /** All deltas are zero. */
    predicate IsZero()
      reads flag
    {
      forall i :: 0 <= i < flag.Length ==> flag[i] == SingleDiff(0, 0)
    }

    /** The constructor zeroes the entry of every flag. */
    constructor ()
      ensures fresh(flag)
      ensures flag.Length == MtNumberOfTypes
      ensures IsZero()
    {
      var diffs := new SingleDiff[MtNumberOfTypes];
      for i := 0 to MtNumberOfTypes
        invariant forall j :: 0 <= j < i ==> diffs[j] == SingleDiff(0, 0)
      {
        diffs[i] := SingleDiff(0, 0);
      }
      flag := diffs;
    }
  }

  // -----------------------------------------------------------------------
  // Mapping wrappers

  /** The arguments reserve_mapping, commit_mapping and release_mapping
      forward to register_mapping(A, B, state, metadata). */
  datatype MappingRequest = MappingRequest(a: Position, b: Position, state: StateType, metadata: RegionData)

  /** `from + sz` in size_t arithmetic, which wraps modulo 2^64. */
  function EndPosition(from: Position, sz: Position): (e: Position)
    ensures from + sz < SizeLimit ==> e == from + sz
    ensures from + sz >= SizeLimit ==> e == from + sz - SizeLimit && e < from
  {
    (from + sz) % SizeLimit
  }

  /** reserve_mapping: registers [from, from + sz) as Reserved. */
  function ReserveMapping(from: Position, sz: Position, metadata: RegionData): (r: MappingRequest)
    ensures r.a == from && r.b == EndPosition(from, sz)
    ensures r.state == Reserved && r.metadata == metadata
  {
    MappingRequest(from, EndPosition(from, sz), Reserved, metadata)
  }

  /** commit_mapping: registers [from, from + sz) as Committed. */
  function CommitMapping(from: Position, sz: Position, metadata: RegionData): (r: MappingRequest)
    ensures r.a == from && r.b == EndPosition(from, sz)
    ensures r.state == Committed && r.metadata == metadata
  {
    MappingRequest(from, EndPosition(from, sz), Committed, metadata)
  }

  /** release_mapping: registers [from, from + sz) as Released with the
      empty region data. */
  function ReleaseMapping(from: Position, sz: Position): (r: MappingRequest)
    ensures r.a == from && r.b == EndPosition(from, sz)
    ensures r.state == Released && r.metadata == EmptyRegionData
  {
    MappingRequest(from, EndPosition(from, sz), Released, EmptyRegionData)
  }

  /** Whether `p` lies in the half-open range a request registers. */
  predicate InRange(r: MappingRequest, p: Position)
  {
    Cmp(r.a, p) <= 0 && Cmp(p, r.b) < 0
  }

  /** Without size_t overflow each wrapper covers exactly the sz positions
      from `from` on; with overflow the end wraps below the start and the
      range is empty. */
  lemma MappingCoversRange(from: Position, sz: Position, metadata: RegionData, p: Position)
    ensures from + sz < SizeLimit ==>
              (InRange(ReserveMapping(from, sz, metadata), p) <==> from <= p < from + sz)
    ensures from + sz >= SizeLimit ==> !InRange(ReserveMapping(from, sz, metadata), p)
    ensures InRange(CommitMapping(from, sz, metadata), p) <==> InRange(ReserveMapping(from, sz, metadata), p)
    ensures InRange(ReleaseMapping(from, sz), p) <==> InRange(ReserveMapping(from, sz, metadata), p)
  {
  }

  /** The state and region data a release registers satisfy the
      IntervalState requirement that Released carries mtNone; it builds the
      Released state with the default stack. */
  lemma ReleaseMappingBuildsState(from: Position, sz: Position)
    ensures ReleaseMapping(from, sz).metadata.flag == MtNone
    ensures NewIntervalState(ReleaseMapping(from, sz).state, ReleaseMapping(from, sz).metadata)
         == IntervalState(Ordinal(Released), MtNone, DefaultStackIndex)
  {
  }

  /** Reserving and committing a range with the same region data differ
      only in the state they register. */
  lemma ReserveAndCommitDifferOnlyInState(from: Position, sz: Position, metadata: RegionData)
    ensures ReserveMapping(from, sz, metadata).(state := Committed) == CommitMapping(from, sz, metadata)
  {
  }
}
