/** `ERROR_SAMPLE(unw_state, msg)`: turns an internal failure of an unwinder
    into a one-frame sample. The frame packs the reporting line with the id
    of a symbol whose class is the message, whose method is the reporting
    function and whose path is the reporting file; the stack is hashed, its
    key recorded in the unwinder state, and the stack stored in the shared
    `stack_traces` map. The call site (`__FILE__`, `__FUNCTION__`,
    `__LINE__`) is given as ordinary parameters. */
module ErrorSampling {

  import opened Builtins
  import opened StackTraces
  import opened Symbols
  import opened StackTraceStore

  /** The discriminant `hash_stack` is given for error samples. */
  const ERROR_DISCRIMINANT: bv64 := 0

  /** The part of the unwinder's stack key this path writes. */
  datatype StackKey = StackKey(interpreterStackId: u64)

  /** The per-invocation unwinder state: the stack being built and its key.
      The stack is embedded in the state, so it is never replaced. */
  class UnwindState {
    const stack: StackTrace
    var stackKey: StackKey

    ghost predicate Valid()
      reads this, stack
    {
      stack.Valid()
    }

    constructor (key: StackKey)
      ensures Valid() && fresh(stack) && fresh(stack.addresses) && stackKey == key
    {
      stack := new StackTrace();
      stackKey := key;
    }
  }

  /** The symbol an error sample reports: each string cut to its field's
      capacity and zero-padded, into a record that started all zero. */
  function ErrorSymbol(msg: seq<byte>, funcName: seq<byte>, file: seq<byte>): (r: SymbolRecord)
    ensures r.Layout()
    ensures r.className[..CLen(r.className)] == Kept(msg, CLASS_NAME_MAXLEN)
    ensures r.methodName[..CLen(r.methodName)] == Kept(funcName, METHOD_MAXLEN)
    ensures r.path[..CLen(r.path)] == Kept(file, PATH_MAXLEN)
  {
    StrncpyKept(msg, CLASS_NAME_MAXLEN);
    StrncpyKept(funcName, METHOD_MAXLEN);
    StrncpyKept(file, PATH_MAXLEN);
    SymbolRecord(StrncpyResult(msg, CLASS_NAME_MAXLEN),
                 StrncpyResult(funcName, METHOD_MAXLEN),
                 StrncpyResult(file, PATH_MAXLEN))
  }

  /** Two call sites report the same symbol exactly when their message,
      function name and file agree on the bytes that fit in the fields. */
  lemma ErrorSymbolSameIff(msg1: seq<byte>, funcName1: seq<byte>, file1: seq<byte>,
                           msg2: seq<byte>, funcName2: seq<byte>, file2: seq<byte>)
    ensures ErrorSymbol(msg1, funcName1, file1) == ErrorSymbol(msg2, funcName2, file2) <==>
              && Kept(msg1, CLASS_NAME_MAXLEN) == Kept(msg2, CLASS_NAME_MAXLEN)
              && Kept(funcName1, METHOD_MAXLEN) == Kept(funcName2, METHOD_MAXLEN)
              && Kept(file1, PATH_MAXLEN) == Kept(file2, PATH_MAXLEN)
  {
    StrncpySameIff(msg1, msg2, CLASS_NAME_MAXLEN);
    StrncpySameIff(funcName1, funcName2, METHOD_MAXLEN);
    StrncpySameIff(file1, file2, PATH_MAXLEN);
  }

  /** The stack an error sample builds: zeroed, then one frame and `len = 1`. */
  function OneFrameStack(frame: bv64): (s: StackTraceValue)
    ensures s.Layout() && s.WithinCapacity()
    ensures s.len == 1 && !s.truncated
    ensures s.Frames() == [frame]
    ensures forall i :: 1 <= i < |s.addresses| ==> s.addresses[i] == 0
  {
    var z := ZeroStack();
    z.(addresses := z.addresses[0 := frame], len := 1)
  }

  /** What one error sample does to the shared state, as values: the new
      symbol table, the stack built, its key and the new `stack_traces`. */
  datatype Effect = Effect(ids: map<SymbolRecord, bv64>, stack: StackTraceValue, stackId: u64,
                           entries: map<u64, StackTraceValue>)

  function ErrorSampleEffect(ids: map<SymbolRecord, bv64>, entries: map<u64, StackTraceValue>,
                             msg: seq<byte>, funcName: seq<byte>, file: seq<byte>, lineno: bv64,
                             hash: StackHasher, freshId: bv64): (e: Effect)
    ensures e.ids == Intern(ids, ErrorSymbol(msg, funcName, file), freshId).1
    ensures e.stack.Layout() && e.stack.WithinCapacity()
    ensures e.stack.len == 1 && !e.stack.truncated
    ensures e.stack.addresses[0] == Pack(lineno, e.ids[ErrorSymbol(msg, funcName, file)])
    ensures forall i :: 1 <= i < |e.stack.addresses| ==> e.stack.addresses[i] == 0
    ensures e.stackId == HashStack(e.stack, ERROR_DISCRIMINANT, hash)
    ensures e.entries.Keys == entries.Keys + {e.stackId} && e.entries[e.stackId] == e.stack
    ensures forall k :: k in entries && k != e.stackId ==> e.entries[k] == entries[k]
  {
    var (id, ids') := Intern(ids, ErrorSymbol(msg, funcName, file), freshId);
    var stack := OneFrameStack(Pack(lineno, id));
    var stackId := HashStack(stack, ERROR_DISCRIMINANT, hash);
    Effect(ids', stack, stackId, Upsert(entries, stackId, stack))
  }

  /** The frame of an error sample decodes to the reporting line and the
      symbol's id when both fit in 32 bits. */
  lemma ErrorSampleDecodes(ids: map<SymbolRecord, bv64>, entries: map<u64, StackTraceValue>,
                           msg: seq<byte>, funcName: seq<byte>, file: seq<byte>, lineno: bv64,
                           hash: StackHasher, freshId: bv64)
    requires lineno <= 0xFFFF_FFFF
    requires Intern(ids, ErrorSymbol(msg, funcName, file), freshId).0 <= 0xFFFF_FFFF
    ensures var e := ErrorSampleEffect(ids, entries, msg, funcName, file, lineno, hash, freshId);
            && FrameLine(e.entries[e.stackId].addresses[0]) == lineno
            && FrameSymbol(e.entries[e.stackId].addresses[0]) == e.ids[ErrorSymbol(msg, funcName, file)]
  {
    var e := ErrorSampleEffect(ids, entries, msg, funcName, file, lineno, hash, freshId);
    var id := Intern(ids, ErrorSymbol(msg, funcName, file), freshId).0;
    assert e.entries[e.stackId].addresses[0] == Pack(lineno, id);
    PackRoundTrip(lineno, id);
  }

  /** Reporting the same failure again from the same call site changes
      nothing further: the symbol keeps its id, the stack and its key are the
      same, and the map already holds that stack under that key. */
  lemma ErrorSampleRepeat(ids: map<SymbolRecord, bv64>, entries: map<u64, StackTraceValue>,
                          msg: seq<byte>, funcName: seq<byte>, file: seq<byte>, lineno: bv64,
                          hash: StackHasher, freshId1: bv64, freshId2: bv64)
    ensures var e1 := ErrorSampleEffect(ids, entries, msg, funcName, file, lineno, hash, freshId1);
            ErrorSampleEffect(e1.ids, e1.entries, msg, funcName, file, lineno, hash, freshId2) == e1
  {
    var e1 := ErrorSampleEffect(ids, entries, msg, funcName, file, lineno, hash, freshId1);
    var r := ErrorSymbol(msg, funcName, file);
    InternIdempotent(ids, r, freshId1, freshId2);
    UpsertSameValue(e1.entries, e1.stackId, e1.stack);
  }

  /** "null pointer" in ASCII. */
  const NULL_POINTER: seq<byte> := [0x6E, 0x75, 0x6C, 0x6C, 0x20, 0x70, 0x6F, 0x69, 0x6E, 0x74, 0x65, 0x72]

  /** A failure reported as "null pointer" at line 42 (from any function,
      say `walk_frames`, in any file, say `unwind.c`), into empty tables that
      hand out id 7: the class field holds the message and then zeros, and
      the map holds one stack, of one frame, `(42 << 32) | 7`. */
  lemma NullPointerScenario(funcName: seq<byte>, file: seq<byte>, hash: StackHasher)
    ensures var e := ErrorSampleEffect(map[], map[], NULL_POINTER, funcName, file, 42, hash, 7);
            var r := ErrorSymbol(NULL_POINTER, funcName, file);
            && r.className == NULL_POINTER + Zeros(20)
            && e.ids == map[r := 7]
            && e.entries.Keys == {e.stackId}
            && e.entries[e.stackId].len == 1
            && e.entries[e.stackId].addresses[0] == 0x0000_002A_0000_0007
  {
    NullPointerFits();
    var r := ErrorSymbol(NULL_POINTER, funcName, file);
    assert r.className == StrncpyResult(NULL_POINTER, CLASS_NAME_MAXLEN);
    var e := ErrorSampleEffect(map[], map[], NULL_POINTER, funcName, file, 42, hash, 7);
    assert e.ids == map[r := 7];
    assert e.entries[e.stackId].addresses[0] == Pack(42, 7);
    PackedLine42Id7();
  }

  /** "null pointer" is 12 bytes: it fits the 32-byte class field whole. */
  lemma NullPointerFits()
    ensures StrncpyResult(NULL_POINTER, CLASS_NAME_MAXLEN) == NULL_POINTER + Zeros(20)
  {
    NullPointerLength();
    StrncpyPads(NULL_POINTER, CLASS_NAME_MAXLEN);
  }

  lemma NullPointerLength()
    ensures CLen(NULL_POINTER) == 12
  {
    CLenAt(NULL_POINTER, 12);
  }

  lemma PackedLine42Id7()
    ensures Pack(42, 7) == 0x0000_002A_0000_0007
  {
  }

  /** `ERROR_SAMPLE(unwState, msg)` reported from line `lineno` of function
      `funcName` in `file`. `symbols`, `stackTraces` and `hash` stand for the
      shared symbol table, the shared `stack_traces` map and `hash_stack`;
      `freshId` is the id the symbol table hands out if the symbol is new. */
  method ErrorSample(unwState: UnwindState, msg: seq<byte>, funcName: seq<byte>, file: seq<byte>,
                     lineno: bv64, symbols: SymbolTable, stackTraces: StackTraceMap,
                     hash: StackHasher, freshId: bv64)
    requires unwState.Valid()
    modifies unwState, unwState.stack, unwState.stack.addresses, symbols, stackTraces
    ensures unwState.Valid()
    ensures var e := ErrorSampleEffect(old(symbols.ids), old(stackTraces.entries),
                                       msg, funcName, file, lineno, hash, freshId);
            && symbols.ids == e.ids
            && unwState.stack.Value() == e.stack
            && unwState.stackKey == old(unwState.stackKey).(interpreterStackId := e.stackId)
            && stackTraces.entries == e.entries
  {
    var sym := new Symbol();
    sym.Clear();
    unwState.stack.Clear();
    Strncpy(sym.path, file);
    Strncpy(sym.methodName, funcName);
    Strncpy(sym.className, msg);
    var id := symbols.GetSymbolId(sym.Record(), freshId);
    var lineWord := lineno;
    unwState.stack.addresses[0] := Pack(lineWord, id);
    unwState.stack.len := 1;
    var stackId := HashStack(unwState.stack.Value(), ERROR_DISCRIMINANT, hash);
    unwState.stackKey := unwState.stackKey.(interpreterStackId := stackId);
    // The macro passes `&unwind_state->stack` here, not its own parameter
    // `unw_state`; that names the stack just built only when the caller's
    // variable is called `unwind_state`. The stack just built is stored.
    stackTraces.Update(stackId, unwState.stack.Value());
    // `aggregate_stacks()` follows; it is not part of this model.
  }
}
