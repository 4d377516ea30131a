# Error samples and stack records of the parca-agent BPF unwinders

This project models the shared stack-trace and error-sample logic of the
parca-agent BPF unwinders (`bpf/unwinders/common.h`) in Dafny and proves
properties of that model.

- **Records.** `stack_trace_t` is a 32-bit length, a `truncated` flag and
  127 64-bit address slots. `symbol_t` is three zero-padded byte buffers:
  class name (32), method name (64) and path (128).
- **`ERROR_SAMPLE(unw_state, msg)`.** It reports an internal failure of an
  unwinder as a one-frame sample, in this order:
  1. zero a local `symbol_t` and the unwinder state's stack;
  2. `strncpy` the file, the function name and the message into the symbol;
  3. intern the symbol with `get_symbol_id`;
  4. store `(lineno << 32) | id` in `addresses[0]` and set `len = 1`;
  5. hash the stack with discriminant 0 and record the hash as the state's
     `interpreter_stack_id`;
  6. store the stack under that hash in the `stack_traces` map with `BPF_ANY`.
- **Page constants.** `PAGE_SIZE` and `THREAD_SIZE` are derived by shifts.

Layout:

- `builtins.dfy` (module `Builtins`) holds `__builtin_memset` and
  `__builtin_strncpy` as methods over arrays. `StrncpyResult` is the
  function that specifies the copy, with its lemmas.
- `stack_traces.dfy` (module `StackTraces`) holds the `stack_trace_t` class
  and its value form. It also holds the frame packing and its decoding, and
  `hash_stack`.
- `symbols.dfy` (module `Symbols`) holds the `symbol_t` class and its value
  form, and the symbol table with its insert-or-fetch `get_symbol_id`.
- `stack_trace_store.dfy` (module `StackTraceStore`) holds the `stack_traces`
  map and its `BPF_ANY` update.
- `error_sample.dfy` (module `ErrorSampling`) holds the unwinder state and
  the `ERROR_SAMPLE` method. `ErrorSampleEffect` is the function that
  specifies it, with lemmas about it.
- `page_constants.dfy` (module `PageConstants`) holds the page constants.

Collaborators whose code is not shown are parameters:

- `hash_stack` is any function of `(len, addresses[0..len), discriminant)`.
- `get_symbol_id` is insert-or-fetch on a table. The id that a new symbol
  gets is supplied by the caller (`freshId`). No id-assignment scheme is
  assumed.
- `bpf_map_update_elem(..., BPF_ANY)` overwrites on write.
- `__FILE__`, `__FUNCTION__` and `__LINE__` are ordinary parameters.

C strings are byte sequences. A string ends at its first NUL byte, or at the
end of the sequence when it has none. `u64` symbol ids and frames are `bv64`,
so the packing is exact 64-bit arithmetic. Stack keys are only hashed and
compared, so they are kept as a 64-bit integer newtype.

Line 63 of the macro passes `&unwind_state->stack`, not the macro's own
parameter `unw_state`. It stores the stack just built only when the caller's
variable has that exact name. The model stores the stack just built, which is
the evident intent. A comment at that step of `ErrorSampling.ErrorSample`
records this.

## Model

| member | source | states |
|---|---|---|
| `PageConstants.PageSizes` | bpf/unwinders/common.h:5-9 | `PAGE_SIZE = 1 << 12` is 4096. `THREAD_SIZE = PAGE_SIZE << 2` is 16384, which is four pages, and shifting it back by `THREAD_SIZE_ORDER` gives `PAGE_SIZE` (no bit is lost). |
| `Builtins.Memset` | bpf/unwinders/common.h:52-53 | After the zeroing, every element of the buffer is 0. |
| `Builtins.CLen` | bpf/unwinders/common.h:54-56 | Where `strncpy` stops reading: every byte before it is non-NUL, the byte at it is NUL, and it never passes the end. |
| `Builtins.StrncpyResult` | bpf/unwinders/common.h:54-56 | The copy into N bytes is exactly N long. It holds the source bytes up to the source's NUL or up to N, and 0 in every byte after that. |
| `Builtins.Strncpy` | bpf/unwinders/common.h:54-56 | The whole destination array equals `StrncpyResult(src, capacity)`, whatever it held before. |
| `Builtins.StrncpyReadBack` | bpf/unwinders/common.h:54-56 | A string shorter than the buffer stays NUL-terminated. Reading the buffer back gives the same string. |
| `Builtins.StrncpyPads` | bpf/unwinders/common.h:54-56 | A NUL-free source shorter than the buffer is copied whole, followed by zeros up to the buffer's size. |
| `Builtins.StrncpyTruncates` | bpf/unwinders/common.h:54-56 | A string of N bytes or more is truncated, not rejected. The buffer holds its first N bytes and has no NUL terminator. |
| `Builtins.StrncpyKept` | bpf/unwinders/common.h:54-56 | In every case, reading the buffer back gives exactly the part of the source that was kept. |
| `Builtins.StrncpySameIff` | bpf/unwinders/common.h:54-56 | Two sources give byte-identical buffers if and only if their kept parts are equal. Bytes past the cut do not matter. |
| `StackTraces.ZeroStack` | bpf/unwinders/common.h:24-30 | A zeroed `stack_trace_t` has 127 slots, `len == 0`, `truncated == false` and every address 0. |
| `StackTraces.StackTrace.Clear` | bpf/unwinders/common.h:53 | Zeroing the stack in place leaves it equal to the zeroed stack. |
| `StackTraces.Pack` | bpf/unwinders/common.h:58-59 | The upper half of the packed frame (`lineno << 32` or-ed with `id`) is the low 32 bits of the line or-ed with the id's upper bits. The lower half is the id's low 32 bits. |
| `StackTraces.PackRoundTrip` | bpf/unwinders/common.h:58-59 | A line and an id that both fit in 32 bits decode back from the packed frame unchanged. |
| `StackTraces.UnpackRoundTrip` | bpf/unwinders/common.h:59 | Every 64-bit frame is the packing of its two decoded halves, and each half fits in 32 bits. |
| `StackTraces.PackWideIdLost` | bpf/unwinders/common.h:57-59 | An id of 2^32 or more cannot be read back from the packed frame. |
| `StackTraces.HashStack` | bpf/unwinders/common.h:61 | `hash_stack(&stack, discriminant)`: the key is the abstract hash applied to `len`, the live entries `addresses[0..len)` and the discriminant; nothing else of the stack is read. |
| `StackTraces.HashDeterministic` | bpf/unwinders/common.h:61 | Stacks with equal `len` and equal `addresses[0..len)` get the same key under the same discriminant. Slots past `len` and the `truncated` flag play no part. |
| `Symbols.Bytes` | bpf/unwinders/common.h:33-41 | The memory image of a `symbol_t` is 224 bytes. |
| `Symbols.BytesInjective` | bpf/unwinders/common.h:37-41 | Two records are equal if and only if their 224-byte images are equal. Keying the table by record is the same as keying it by bytes. |
| `Symbols.Symbol.Clear` | bpf/unwinders/common.h:51-52 | Zeroing the local symbol leaves all three fields entirely zero. |
| `Symbols.Intern` | bpf/unwinders/common.h:57 | Insert-or-fetch: the table gains exactly the record. Every id handed out before is unchanged. The record maps to the returned id, which is the fresh id when the record is new. |
| `Symbols.InternIdempotent` | bpf/unwinders/common.h:57 | Interning the same record again, with any fresh id, returns the first id and leaves the table unchanged. |
| `Symbols.InternStable` | bpf/unwinders/common.h:57 | An id already in the table survives any later interning. |
| `Symbols.SymbolTable.GetSymbolId` | bpf/unwinders/common.h:57 | The returned id and the new table are those of `Intern` on the old table. |
| `StackTraceStore.Upsert` | bpf/unwinders/common.h:63 | After a `BPF_ANY` update the key is present and maps to the new stack. Keys are only added, and every other key keeps its value. |
| `StackTraceStore.UpsertOverwrites` | bpf/unwinders/common.h:63 | Two updates under one key leave only the second value: last writer wins. |
| `StackTraceStore.UpsertSameValue` | bpf/unwinders/common.h:63 | Writing the value already stored under a key leaves the map unchanged. |
| `StackTraceStore.StackTraceMap.Update` | bpf/unwinders/common.h:63 | The map's new contents are `Upsert` of its old contents. |
| `ErrorSampling.ErrorSymbol` | bpf/unwinders/common.h:51-56 | The reported symbol has the 32/64/128 layout. Each field reads back as its source string cut to the field's capacity. |
| `ErrorSampling.ErrorSymbolSameIff` | bpf/unwinders/common.h:51-56 | Two call sites report the same symbol if and only if their message, function name and file agree on the kept bytes. The symbol is a function of those three strings alone. |
| `ErrorSampling.OneFrameStack` | bpf/unwinders/common.h:53-60 | The built stack has 127 slots and `len == 1`, so `len <= MAX_STACK_DEPTH`. It is not truncated, its only live frame is the given one, and every slot from 1 on is 0. |
| `ErrorSampling.ErrorSampleEffect` | bpf/unwinders/common.h:49-65 | The table is the old table with the symbol interned. The stack has `len == 1`, is not truncated, has `addresses[0]` equal to `lineno << 32` or-ed with `id` and zeros after that. Its key is `hash_stack(stack, 0)`. The map gains that key, which maps to that stack, and no other key changes. |
| `ErrorSampling.ErrorSampleDecodes` | bpf/unwinders/common.h:58-59 | The frame stored in the map decodes to the reporting line and the symbol's id when both fit in 32 bits. |
| `ErrorSampling.ErrorSampleRepeat` | bpf/unwinders/common.h:49-65 | Reporting the same failure again from the same call site leaves the table, the stack, the key and the map as the first report left them. |
| `ErrorSampling.NullPointerScenario` | bpf/unwinders/common.h:49-65 | "null pointer" reported at line 42 into empty tables that give id 7 yields a class field of the 12 message bytes and 20 zeros, and a table with that one symbol. The map holds one stack, with `len == 1` and `addresses[0]` equal to `42 << 32` or-ed with 7. |
| `ErrorSampling.ErrorSample` | bpf/unwinders/common.h:49-65 | The method runs the steps in the source's order. It leaves the symbol table, the unwinder's stack, the stack key's `interpreter_stack_id` and the `stack_traces` map exactly as `ErrorSampleEffect` of their old values says. The stack key is its old value with `interpreter_stack_id` replaced; it has no other modelled field (see the `ErrorSampling.StackKey` line under Left out). |

## Left out

- `pkg/logger/logger.go` is not part of this model. It configures loggers writing to stderr and bridges library log callbacks: I/O plumbing with no state of its own.
- `aggregate_stacks()` (line 64) is not modelled: its code is not shown. The model ends at the map update.
- The bodies of `get_symbol_id`, `hash_stack` and `bpf_map_update_elem` are not shown. They are modelled only by the behaviour stated above: insert-or-fetch, a function of the live stack, overwrite-on-write.
- A full symbol table or a full `stack_traces` map is not modelled. Both are fixed-capacity BPF maps whose size and failure codes are defined outside this file, and the macro ignores the update's return value.
- Concurrency on the shared maps is not modelled: races on first insertion of a symbol, and lock-free insertion. Every call here runs alone.
- The frame-walking unwinder, and its rule for setting `truncated` on deep stacks, is not part of this model. Only the buffer layout is in this file.
- `EFAULT` and `EEXIST` (lines 16-17) are bare constants with no logic in this file.
- `TOP_OF_KERNEL_STACK_PADDING` (line 5) is declared as a constant. No property is stated about it, as nothing in this file uses it.
- Macro mechanics (`__FILE__`, `__FUNCTION__`, `__LINE__`, the statement-expression form) are replaced by parameters of an ordinary method.
- `Builtins.Memset`: zeroes a buffer element by element, not byte by byte. For zero the two agree. The three padding bytes of `stack_trace_t` after `truncated` are not modelled.
- `ErrorSampling.StackKey`: only `interpreter_stack_id`, the one field this file writes, is modelled. The rest of the stack-key struct is defined elsewhere.
