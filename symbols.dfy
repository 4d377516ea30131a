/** `symbol_t`, the fixed-layout descriptor of a frame's origin (three
    zero-padded byte buffers), and the table that interns it into a 64-bit
    id (`get_symbol_id`). */
module Symbols {

  import opened Builtins

  const CLASS_NAME_MAXLEN: nat := 32
  const METHOD_MAXLEN: nat := 64
  const PATH_MAXLEN: nat := 128
  /** `sizeof(symbol_t)`: three `char` arrays, no padding. */
  const SYMBOL_SIZE: nat := CLASS_NAME_MAXLEN + METHOD_MAXLEN + PATH_MAXLEN

  /** A `symbol_t` by value, as the symbol table keys it. */
  datatype SymbolRecord = SymbolRecord(className: seq<byte>, methodName: seq<byte>, path: seq<byte>)
  {
    predicate Layout()
    {
      |className| == CLASS_NAME_MAXLEN && |methodName| == METHOD_MAXLEN && |path| == PATH_MAXLEN
    }
  }

  /** The record's memory image, field after field. */
  function Bytes(r: SymbolRecord): (b: seq<byte>)
    requires r.Layout()
    ensures |b| == SYMBOL_SIZE == 224
  {
    r.className + r.methodName + r.path
  }

  /** Comparing records field by field is comparing their 224-byte images,
      which is how a map keyed by `symbol_t` compares them. */
  lemma BytesInjective(r1: SymbolRecord, r2: SymbolRecord)
    requires r1.Layout() && r2.Layout()
    ensures Bytes(r1) == Bytes(r2) <==> r1 == r2
  {
    if Bytes(r1) == Bytes(r2) {
      assert r1.className == Bytes(r1)[..32] && r2.className == Bytes(r2)[..32];
      assert r1.methodName == Bytes(r1)[32..96] && r2.methodName == Bytes(r2)[32..96];
      assert r1.path == Bytes(r1)[96..] && r2.path == Bytes(r2)[96..];
    }
  }

  /** A local `symbol_t` being filled in place. */
  class Symbol {
    const className: array<byte>
    const methodName: array<byte>
    const path: array<byte>

    ghost predicate Valid()
      reads this
    {
      className.Length == CLASS_NAME_MAXLEN && methodName.Length == METHOD_MAXLEN && path.Length == PATH_MAXLEN
    }

    function Record(): (r: SymbolRecord)
      reads this, className, methodName, path
      ensures Valid() ==> r.Layout()
    {
      SymbolRecord(className[..], methodName[..], path[..])
    }

    /** A struct on the stack: its bytes are unspecified until written. */
    constructor ()
      ensures Valid() && fresh(className) && fresh(methodName) && fresh(path)
    {
      className := new byte[CLASS_NAME_MAXLEN];
      methodName := new byte[METHOD_MAXLEN];
      path := new byte[PATH_MAXLEN];
    }

    /** `__builtin_memset(&sym, 0, sizeof(symbol_t))`. */
    method Clear()
      requires Valid()
      modifies className, methodName, path
      ensures Valid()
      ensures Record() == SymbolRecord(Zeros(CLASS_NAME_MAXLEN), Zeros(METHOD_MAXLEN), Zeros(PATH_MAXLEN))
    {
      Memset(className, 0);
      Memset(methodName, 0);
      Memset(path, 0);
    }
  }

  /** Interning `r` in a table `ids`: a record already present keeps its id;
      a new one is entered with `freshId`, chosen by the table's own
      (not modelled) id-assignment scheme. The result is the id and the new
      table. */
  function Intern(ids: map<SymbolRecord, bv64>, r: SymbolRecord, freshId: bv64): (res: (bv64, map<SymbolRecord, bv64>))
    ensures res.1.Keys == ids.Keys + {r}
    ensures r in res.1 && res.1[r] == res.0
    ensures forall k :: k in ids ==> res.1[k] == ids[k]
    ensures r !in ids ==> res.0 == freshId
  {
    if r in ids then (ids[r], ids) else (freshId, ids[r := freshId])
  }

  /** Insert-or-fetch is idempotent: interning the same record again, with any
      candidate id, returns the id it got the first time and leaves the table
      as it was. */
  lemma InternIdempotent(ids: map<SymbolRecord, bv64>, r: SymbolRecord, freshId1: bv64, freshId2: bv64)
    ensures var (id1, ids1) := Intern(ids, r, freshId1);
            Intern(ids1, r, freshId2) == (id1, ids1)
  {
  }

  /** Interning never changes or drops an id already handed out. */
  lemma InternStable(ids: map<SymbolRecord, bv64>, r: SymbolRecord, freshId: bv64, k: SymbolRecord)
    requires k in ids
    ensures k in Intern(ids, r, freshId).1 && Intern(ids, r, freshId).1[k] == ids[k]
  {
  }

  /** The process-wide symbol table. */
  class SymbolTable {
    var ids: map<SymbolRecord, bv64>

    constructor ()
      ensures ids == map[]
    {
      ids := map[];
    }

    /** `get_symbol_id(&sym)`: fetch the record's id, inserting it first when
        it is absent. */
    method GetSymbolId(r: SymbolRecord, freshId: bv64) returns (id: bv64)
      modifies this
      ensures (id, ids) == Intern(old(ids), r, freshId)
    {
      if r in ids {
        id := ids[r];
      } else {
        id := freshId;
        ids := ids[r := id];
      }
    }
  }
}
