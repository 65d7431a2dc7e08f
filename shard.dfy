/**
  * Shard configuration of a distributed model: a registry of named shard
  * function pairs (one for dense tensors, one for sparse-row ids), the Shard
  * record (mode, size, function name) with its two initialisers, and its
  * versioned binary record together with the legacy one-int record.
  *
  * Streams are modelled as sequences of typed fields: an int is one
  * IntField, a string one StrField. Reading an int where a string stands
  * (or the other way round), or past the end, fails the stream.
  */
module ShardConfig {
  import opened Base

  /** The version tag that opens every record Write emits. */
  const SHARD_MAGIC: int32 := 0x203de81b
  const DEFAULT_SHARD_FUNC_NAME: string := "default"

  /** A shard function reference: null, the built-in default, or one supplied by a caller. */
  datatype FuncRef = Null | Default | User(id: nat)

  datatype ShardFuncPair = ShardFuncPair(tsr: FuncRef, srm: FuncRef)

  /** A null function is replaced by the built-in default. */
  function OrDefault(f: FuncRef): (g: FuncRef)
    ensures g != Null
    ensures f != Null ==> g == f
  {
    if f == Null then Default else f
  }

  /**
    * DefaultShardFunc::SRMShardFunc: the id and the shard size are both cast
    * to 32-bit unsigned, the remainder is cast back to int. A zero shard size
    * would divide by zero and is excluded.
    */
  function SrmShardFunc(id: int, shardSize: int32): (shard: int32)
    requires shardSize != 0
    ensures shardSize > 0 ==> 0 <= shard < shardSize
    ensures shardSize > 0 && 0 <= id < TWO_32 ==> shard == id % shardSize
  {
    Uint32ToInt32(ToUint32(id) % ToUint32(shardSize))
  }

  /** Only the low 32 bits of an id decide its shard. */
  lemma SrmShardUsesLow32Bits(id: int, k: int, shardSize: int32)
    requires shardSize != 0
    ensures SrmShardFunc(id + k * TWO_32, shardSize) == SrmShardFunc(id, shardSize)
  {
    Low32Bits(id + k * TWO_32, id / TWO_32 + k, id % TWO_32);
  }

  /** x = q * 2^32 + r with 0 <= r < 2^32 has r as its low 32 bits. */
  lemma Low32Bits(x: int, q: int, r: int)
    requires 0 <= r < TWO_32 && x == q * TWO_32 + r
    ensures ToUint32(x) == r
  {
  }

  /**
    * ShardFuncMap: name -> (tsr, srm). A name is registered at most once, no
    * stored function is null, and once start-up has registered "default" it
    * stays, since nothing removes a name.
    */
  class ShardFuncMap {
    var funcs: map<string, ShardFuncPair>

    ghost predicate NoNulls()
      reads this
    {
      forall name :: name in funcs ==> funcs[name].tsr != Null && funcs[name].srm != Null
    }

    ghost predicate Valid()
      reads this
    {
      NoNulls() && DEFAULT_SHARD_FUNC_NAME in funcs
    }

    /** The registry as it stands after static initialisation: only "default", with both default functions. */
    constructor ()
      ensures Valid()
      ensures funcs == map[DEFAULT_SHARD_FUNC_NAME := ShardFuncPair(Default, Default)]
    {
      funcs := map[];
      new;
      var _ := Register(DEFAULT_SHARD_FUNC_NAME, Null, Null);
    }

    /** Register: a name already present throws and changes nothing; null functions become the defaults. */
    method Register(name: string, tsr: FuncRef, srm: FuncRef) returns (threw: bool)
      requires NoNulls()
      modifies this
      ensures NoNulls()
      ensures old(Valid()) ==> Valid()
      ensures threw <==> name in old(funcs)
      ensures threw ==> funcs == old(funcs)
      ensures !threw ==> funcs == old(funcs)[name := ShardFuncPair(OrDefault(tsr), OrDefault(srm))]
    {
      if name in funcs {
        return true;
      }
      var t := if tsr == Null then Default else tsr;
      var s := if srm == Null then Default else srm;
      funcs := funcs[name := ShardFuncPair(t, s)];
      return false;
    }

    /** Get: the stored pair, or a throw for an unregistered name. */
    method Get(name: string) returns (r: Outcome<ShardFuncPair>)
      requires Valid()
      ensures r.Returned? <==> name in funcs
      ensures r.Returned? ==> r.value == funcs[name] && r.value.tsr != Null && r.value.srm != Null
    {
      if name !in funcs {
        return Threw;
      }
      return Returned(funcs[name]);
    }
  }

  /** The three persistent fields of a Shard. */
  datatype ShardRecord = ShardRecord(mode: int32, size: int32, funcName: string)

  /** One value written to or read from a stream. */
  datatype Field = IntField(i: int32) | StrField(s: string)

  /** What Write appends: the magic version, then mode, size and function name. */
  function EncodeShard(rec: ShardRecord): (fields: seq<Field>)
    ensures |fields| == 4 && fields[0] == IntField(SHARD_MAGIC)
  {
    [IntField(SHARD_MAGIC), IntField(rec.mode), IntField(rec.size), StrField(rec.funcName)]
  }

  /** The legacy record is one int, the shard size, where 0 meant "not sharded". */
  function LegacyRecord(size: int32): (rec: ShardRecord)
    ensures rec.funcName == DEFAULT_SHARD_FUNC_NAME
    ensures size == 0 ==> rec.mode == 0 && rec.size == 1
    ensures size != 0 ==> rec.mode == 1 && rec.size == size
  {
    if size == 0 then ShardRecord(0, 1, DEFAULT_SHARD_FUNC_NAME) else ShardRecord(1, size, DEFAULT_SHARD_FUNC_NAME)
  }

  /**
    * A complete record at the head of a stream and the number of fields it
    * spans, or None when the stream fails before the record is complete.
    */
  function DecodeShard(input: seq<Field>): (r: Option<(ShardRecord, nat)>)
    ensures r.Some? ==> 0 < r.value.1 <= |input|
    ensures r.Some? ==> (r.value.1 == 4 <==> input[0] == IntField(SHARD_MAGIC))
    ensures r.Some? && r.value.1 == 4 ==> input[..4] == EncodeShard(r.value.0)
    ensures r.Some? && r.value.1 != 4 ==> r.value.1 == 1 && r.value.0.funcName == DEFAULT_SHARD_FUNC_NAME
    ensures r.None? <==> input == [] || input[0].StrField? || (input[0] == IntField(SHARD_MAGIC) && forall rec :: |input| < 4 || input[..4] != EncodeShard(rec))
  {
    if input == [] then None
    else if input[0] == IntField(SHARD_MAGIC) then
      if |input| >= 4 && input[1].IntField? && input[2].IntField? && input[3].StrField? then
        Some((ShardRecord(input[1].i, input[2].i, input[3].s), 4))
      else None
    else if input[0].IntField? then Some((LegacyRecord(input[0].i), 1))
    else None
  }

  /**
    * The fields a failed read leaves behind: in a versioned record, those
    * read before the stream failed are assigned; a legacy read assigns nothing.
    */
  function PartialRead(input: seq<Field>, prev: ShardRecord): (r: ShardRecord)
    ensures r.funcName == prev.funcName
    ensures (input == [] || input[0] != IntField(SHARD_MAGIC)) ==> r == prev
    ensures r.mode == prev.mode || (|input| >= 2 && input[1] == IntField(r.mode))
    ensures r.size == prev.size || (|input| >= 3 && input[2] == IntField(r.size))
  {
    if input != [] && input[0] == IntField(SHARD_MAGIC) && |input| >= 2 && input[1].IntField? then
      if |input| >= 3 && input[2].IntField? then ShardRecord(input[1].i, input[2].i, prev.funcName)
      else ShardRecord(input[1].i, prev.size, prev.funcName)
    else prev
  }

  /**
    * A versioned record cut short after k fields keeps the mode once it was
    * read and the size once it was read, and never the function name.
    */
  lemma PartialReadCutShort(rec: ShardRecord, prev: ShardRecord, k: nat)
    requires k < 4
    ensures PartialRead(EncodeShard(rec)[..k], prev) ==
      ShardRecord(if k >= 2 then rec.mode else prev.mode, if k >= 3 then rec.size else prev.size, prev.funcName)
  {
  }

  /** Reading back what Write emitted restores all three fields and consumes exactly the record. */
  lemma ShardRoundTrip(rec: ShardRecord, rest: seq<Field>)
    ensures DecodeShard(EncodeShard(rec) + rest) == Some((rec, 4))
  {
  }

  /**
    * A legacy stream holding one int s other than the magic number reads as
    * (0, 1, "default") for s == 0 and (1, s, "default") otherwise.
    */
  lemma LegacyDecode(s: int32, rest: seq<Field>)
    requires s != SHARD_MAGIC
    ensures DecodeShard([IntField(s)] + rest) == Some((LegacyRecord(s), 1))
  {
  }

  /** An empty stream, a versioned record cut short and a stream that opens with a string all fail. */
  lemma DecodeFailures(rec: ShardRecord, k: nat, name: string)
    requires k < 4
    ensures DecodeShard([]).None?
    ensures DecodeShard(EncodeShard(rec)[..k]).None?
    ensures DecodeShard([StrField(name)]).None?
  {
  }

  /**
    * Shard. The fields hold the last initialisation or read; the two
    * function references are those registered under shardFuncName once a lookup succeeded.
    */
  class Shard {
    var shardMode: int32
    var shardSize: int32
    var shardFuncName: string
    var tsrShardFunc: FuncRef
    var srmShardFunc: FuncRef

    function Record(): ShardRecord
      reads this
    {
      ShardRecord(shardMode, shardSize, shardFuncName)
    }

    /**
      * Shard::_Init: the three fields are assigned, then the function pair is
      * looked up, which throws for an unregistered name and leaves the
      * function references as they were.
      */
    method Init(mode: int32, size: int32, funcName: string, registry: ShardFuncMap) returns (threw: bool)
      requires registry.Valid()
      modifies this
      ensures Record() == ShardRecord(mode, size, funcName)
      ensures threw <==> funcName !in registry.funcs
      ensures !threw ==> ShardFuncPair(tsrShardFunc, srmShardFunc) == registry.funcs[funcName]
      ensures threw ==> tsrShardFunc == old(tsrShardFunc) && srmShardFunc == old(srmShardFunc)
    {
      shardMode := mode;
      shardSize := size;
      shardFuncName := funcName;
      var got := registry.Get(shardFuncName);
      if got.Threw? {
        return true;
      }
      tsrShardFunc := got.value.tsr;
      srmShardFunc := got.value.srm;
      return false;
    }

    /** InitNonShard: mode 0, size 1, the default functions; it cannot throw, since "default" is always registered. */
    method InitNonShard(registry: ShardFuncMap) returns (threw: bool)
      requires registry.Valid()
      modifies this
      ensures Record() == ShardRecord(0, 1, DEFAULT_SHARD_FUNC_NAME)
      ensures !threw
      ensures threw <==> DEFAULT_SHARD_FUNC_NAME !in registry.funcs
      ensures !threw ==> ShardFuncPair(tsrShardFunc, srmShardFunc) == registry.funcs[DEFAULT_SHARD_FUNC_NAME]
      ensures threw ==> tsrShardFunc == old(tsrShardFunc) && srmShardFunc == old(srmShardFunc)
    {
      threw := Init(0, 1, DEFAULT_SHARD_FUNC_NAME, registry);
    }

    /** InitShard: mode 1 with the given size and function name. */
    method InitShard(size: int32, funcName: string, registry: ShardFuncMap) returns (threw: bool)
      requires registry.Valid()
      modifies this
      ensures Record() == ShardRecord(1, size, funcName)
      ensures threw <==> funcName !in registry.funcs
      ensures !threw ==> ShardFuncPair(tsrShardFunc, srmShardFunc) == registry.funcs[funcName]
      ensures threw ==> tsrShardFunc == old(tsrShardFunc) && srmShardFunc == old(srmShardFunc)
    {
      threw := Init(1, size, funcName, registry);
    }

    /** Shard::Write: appends the versioned record to the stream. */
    method Write(os: seq<Field>) returns (os': seq<Field>)
      ensures os' == os + EncodeShard(Record())
    {
      os' := os + [IntField(SHARD_MAGIC)];
      os' := os' + [IntField(shardMode)] + [IntField(shardSize)];
      os' := os' + [StrField(shardFuncName)];
    }

    /**
      * Shard::Read: peeks the first int; the magic number announces a
      * versioned record, anything else is read as a legacy record. A stream
      * that fails gives false; otherwise the function pair is looked up,
      * which throws for an unregistered name. The unread rest of the stream
      * is returned.
      */
    method Read(input: seq<Field>, registry: ShardFuncMap) returns (r: Outcome<bool>, rest: seq<Field>)
      requires registry.Valid()
      modifies this
      ensures |rest| <= |input| && rest == input[|input| - |rest|..]
      ensures DecodeShard(input).None? ==>
        r == Returned(false) && Record() == PartialRead(input, old(Record()))
      ensures DecodeShard(input).Some? ==>
        var (rec, n) := DecodeShard(input).value;
        && Record() == rec
        && rest == input[n..]
        && (r == Threw <==> rec.funcName !in registry.funcs)
        && (r.Returned? ==> r.value && ShardFuncPair(tsrShardFunc, srmShardFunc) == registry.funcs[rec.funcName])
      ensures r != Returned(true) ==> tsrShardFunc == old(tsrShardFunc) && srmShardFunc == old(srmShardFunc)
    {
      rest := input;
      if rest == [] {
        return Returned(false), rest;
      }
      var good := true;
      if rest[0] == IntField(SHARD_MAGIC) {
        rest := rest[1..];
        if rest != [] && rest[0].IntField? {
          shardMode := rest[0].i;
          rest := rest[1..];
        } else {
          good := false;
        }
        if good && rest != [] && rest[0].IntField? {
          shardSize := rest[0].i;
          rest := rest[1..];
        } else {
          good := false;
        }
        if good && rest != [] && rest[0].StrField? {
          shardFuncName := rest[0].s;
          rest := rest[1..];
        } else {
          good := false;
        }
      } else if rest[0].IntField? {
        var size := rest[0].i;
        rest := rest[1..];
        if size == 0 {
          shardMode := 0;
          shardSize := 1;
        } else {
          shardMode := 1;
          shardSize := size;
        }
        shardFuncName := DEFAULT_SHARD_FUNC_NAME;
      } else {
        good := false;
      }
      if !good {
        return Returned(false), rest;
      }
      var got := registry.Get(shardFuncName);
      if got.Threw? {
        return Threw, rest;
      }
      tsrShardFunc := got.value.tsr;
      srmShardFunc := got.value.srm;
      return Returned(true), rest;
    }
  }

  /**
    * Shard::RegisterShardFunc followed by InitShard under that name: the
    * shard holds the given functions, with null ones replaced by the defaults.
    */
  method RegisterThenInitShard(registry: ShardFuncMap, shard: Shard, size: int32, funcName: string, tsr: FuncRef, srm: FuncRef)
    returns (registerThrew: bool, initThrew: bool)
    requires registry.Valid() && funcName !in registry.funcs
    modifies registry, shard
    ensures !registerThrew && !initThrew
    ensures shard.Record() == ShardRecord(1, size, funcName)
    ensures shard.tsrShardFunc == OrDefault(tsr) && shard.srmShardFunc == OrDefault(srm)
  {
    registerThrew := registry.Register(funcName, tsr, srm);
    initThrew := shard.InitShard(size, funcName, registry);
  }

  /** Writing a shard and reading the stream back into another shard copies all its fields. */
  method WriteThenRead(registry: ShardFuncMap, source: Shard, target: Shard) returns (r: Outcome<bool>)
    requires registry.Valid() && source != target
    requires source.shardFuncName in registry.funcs
    modifies target
    ensures r == Returned(true)
    ensures target.Record() == source.Record()
    ensures ShardFuncPair(target.tsrShardFunc, target.srmShardFunc) == registry.funcs[source.shardFuncName]
  {
    var os := source.Write([]);
    ShardRoundTrip(source.Record(), []);
    assert os == EncodeShard(source.Record()) + [];
    var rest;
    r, rest := target.Read(os, registry);
  }
}
