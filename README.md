# hexite core, modelled in Dafny

hexite is a hex editor for VS Code. This project models five parts of it.

- **The file accessors of the extension** (`file_system_adaptor.dfy`).
  - `FileHandleContainer` lends one lazily opened file handle to queued operations, one at a time and first in, first out. It closes the handle after a second of idleness. After `dispose`, it rejects whatever is queued and everything borrowed later.
  - `NativeFileAccessor` makes every request one borrow of that handle.
  - `SimpleFileAccessor` reads from a memoised `readFile` of the whole file. A failed fetch is memoised too, and fails every read until `invalidate`.
  - The asynchronous drain loop (`process`) is a state machine. Its suspension point is `phase`. Each thing it awaits (the open, the running operation, the idle timer) is a method the environment calls.
- **The postMessage protocol** (`protocol.dfy`).
  - Every envelope a side posts (event, request or reply) takes the next id of one counter.
  - A reply settles the pending request it names.
  - Any other message goes to the handler, and the handler's answer is posted back as a reply.
- **The document** (`hex_document.dfy`).
  - The `baseAddress` chosen from the URI query, with `parseQuery` and `parseHexOrDecInt`.
  - `readBuffer` over a `SimpleFileAccessor`.
- **`getCorrectArrayBuffer`** (`util.dfy`).
- **The virtual-scroll calculator of the `hexite-scroll` crate** (`scroll.dfy`).
  - Rust `u32` arithmetic is exact here. Every division by zero, overflow or underflow that would panic in a debug build is a precondition.

Two support modules hold shared definitions:
- `prelude.dfy`: `Option`, bytes, `Min`/`Max`.
- `js_builtins.dfy`: the JavaScript built-ins the code relies on, with their edge cases:
  - `slice`/`subarray` with negative indices;
  - `split`/`join`;
  - ASCII `toLowerCase`;
  - `parseInt`: leading white space, sign, an optional `0x` for radix 16, the longest digit run, and `NaN`.

Where the code and its documentation disagree, the model follows the code. Two examples:
- `readBuffer` over a `SimpleFileAccessor` does not return an empty array for a read past the end of the file. It returns `length + read` zero bytes (see Findings).
- `getCorrectArrayBuffer` copies from the start of the buffer, not from the view's offset.

## Model

| member | source | states |
|---|---|---|
| FileSystemAdaptor.Rejections | hexite-vscode/src/fileSystemAdaptor.ts:115-119 | `rejectAll` settles one rejection per queued operation. It pops from the tail, so the k-th settlement rejects the k-th operation from the end. |
| FileSystemAdaptor.RejectionsRejectEach | hexite-vscode/src/fileSystemAdaptor.ts:115-119 | An operation is rejected with `e` exactly when it was queued. Nothing else is settled, and nothing is settled any other way. |
| FileSystemAdaptor.Settle | hexite-vscode/src/fileSystemAdaptor.ts:84-88 | The borrow promise settles for the same operation as the borrowed function did: resolved with what it returned, or rejected with what it threw. |
| FileSystemAdaptor.FileHandleContainer.constructor | hexite-vscode/src/fileSystemAdaptor.ts:62-70 | A new container has an empty queue, no handle, no timer, and is not disposed. |
| FileSystemAdaptor.FileHandleContainer.Borrowed | hexite-vscode/src/fileSystemAdaptor.ts:73-95 | The effect of one `borrow` on the container, shared by `Borrow` and the native accessor's requests. |
| FileSystemAdaptor.FileHandleContainer.Borrow | hexite-vscode/src/fileSystemAdaptor.ts:73-95 | After `dispose` the borrow is rejected at once and is not queued. Otherwise the operation joins the tail. A drain starts only when the queue was empty, and then the timer is cancelled and the handle is either lent at once or opened. The FIFO and drain invariants are kept. |
| FileSystemAdaptor.FileHandleContainer.Continue | hexite-vscode/src/fileSystemAdaptor.ts:126-149 | One turn of the drain loop. With work queued, it opens when there is no handle, and otherwise lends the handle to the head, which is the oldest operation not yet lent. With the queue empty, it leaves the loop and arms the idle timer exactly when a handle is held. |
| FileSystemAdaptor.FileHandleContainer.OpenSucceeded | hexite-vscode/src/fileSystemAdaptor.ts:127-138 | The opened handle is kept, even after `dispose`, and the loop carries on: the head runs, or the loop ends and arms the timer. |
| FileSystemAdaptor.FileHandleContainer.OpenFailed | hexite-vscode/src/fileSystemAdaptor.ts:133-135 | A failed open rejects every queued operation with the open's error, last first, and ends the drain with no handle and no timer. The container is not disposed. |
| FileSystemAdaptor.FileHandleContainer.HeadCompleted | hexite-vscode/src/fileSystemAdaptor.ts:79-89 | The head's promise settles with its result or its error, and the head leaves the queue (lines 138-139). If `dispose` already emptied the queue, nothing is settled twice. |
| FileSystemAdaptor.FileHandleContainer.TimerFired | hexite-vscode/src/fileSystemAdaptor.ts:144-149 | The idle close drops the handle. Nothing else changes. |
| FileSystemAdaptor.FileHandleContainer.Close | hexite-vscode/src/fileSystemAdaptor.ts:107-113 | The handle is dropped and the timer cancelled. The queue and the disposed flag are untouched, so a later borrow reopens. |
| FileSystemAdaptor.FileHandleContainer.Dispose | hexite-vscode/src/fileSystemAdaptor.ts:97-104 | The container is disposed for good: the handle is dropped, the timer cancelled and every queued operation rejected with the "disposed" error, last first. |
| FileSystemAdaptor.FileHandleContainer.RejectAll | hexite-vscode/src/fileSystemAdaptor.ts:115-119 | The pop loop empties the queue and appends exactly `Rejections(queue, e)` to what was settled. Nothing else changes. |
| FileSystemAdaptor.SecondReadSharesHandle | hexite-vscode/src/fileSystemAdaptor.ts:91-93 | A read borrowed while another runs is not opened again. It runs on the same handle after the first, and both settle in order. |
| FileSystemAdaptor.IdleHandleIsReused | hexite-vscode/src/fileSystemAdaptor.ts:121-124 | After a drain the timer is armed. The next borrow cancels it and runs on the open handle. |
| FileSystemAdaptor.TimerForcesReopen | hexite-vscode/src/fileSystemAdaptor.ts:144-149 | Once the idle timer has fired, the next borrow opens the file again. |
| FileSystemAdaptor.OpenFailureRejectsQueue | hexite-vscode/src/fileSystemAdaptor.ts:127-135 | An open failure rejects both queued operations, the later one first. The container stays usable and the next borrow opens again. |
| FileSystemAdaptor.DisposeRejectsQueue | hexite-vscode/src/fileSystemAdaptor.ts:97-104 | Disposing with two operations queued rejects both, the later first, and leaves the queue empty. |
| FileSystemAdaptor.BorrowAfterDispose | hexite-vscode/src/fileSystemAdaptor.ts:74-76 | The running operation is rejected by `dispose` and its later completion settles nothing. A later borrow is rejected at once and is not queued. |
| FileSystemAdaptor.NativeFileAccessor.constructor | hexite-vscode/src/fileSystemAdaptor.ts:159-162 | Each native accessor owns a fresh container for the file's path, in the state `new FileHandleContainer` leaves it: nothing queued, submitted or settled, no handle, no timer, idle and not disposed. |
| FileSystemAdaptor.NativeFileAccessor.GetSize | hexite-vscode/src/fileSystemAdaptor.ts:168-170 | `getSize` is exactly one borrow, of a `stat`, with all of `borrow`'s effect on the container (`Borrowed`): the queue, the phase, the timer and the handle. |
| FileSystemAdaptor.NativeFileAccessor.Read | hexite-vscode/src/fileSystemAdaptor.ts:172-177 | `read` is exactly one borrow, reading `target.byteLength` bytes at `offset`, with all of `borrow`'s effect on the container (`Borrowed`). |
| FileSystemAdaptor.NativeFileAccessor.Dispose | hexite-vscode/src/fileSystemAdaptor.ts:179-181 | Disposing the accessor disposes its container: disposed for good, handle dropped, timer cancelled, every queued operation rejected last first, and the phase and submitted operations kept. |
| FileSystemAdaptor.SimpleFileAccessor.constructor | hexite-vscode/src/fileSystemAdaptor.ts:189-192 | A new accessor has nothing memoised. |
| FileSystemAdaptor.SimpleFileAccessor.GetContents | hexite-vscode/src/fileSystemAdaptor.ts:217-220 | The file is fetched only when nothing is memoised, and the fetch is memoised however it settles, a failure included. Otherwise the memo is returned unchanged. |
| FileSystemAdaptor.SimpleFileAccessor.Read | hexite-vscode/src/fileSystemAdaptor.ts:202-207 | A failed fetch fails the read with its error and leaves `data` untouched. Otherwise the count is `min(data.length, size - offset)`. Within the file, exactly the bytes from `offset` on are copied to the start of `data`, and the rest of `data` is untouched. Past the end, the count is negative and `data` is untouched. |
| FileSystemAdaptor.SimpleFileAccessor.Invalidate | hexite-vscode/src/fileSystemAdaptor.ts:209-211 | The memoised bytes are forgotten. |
| FileSystemAdaptor.SimpleFileAccessor.Dispose | hexite-vscode/src/fileSystemAdaptor.ts:213-215 | The memoised bytes are forgotten. |
| FileSystemAdaptor.FailedFetchIsSticky | hexite-vscode/src/fileSystemAdaptor.ts:217-220 | A failed `readFile` fails the read that started it and the next read too, even when the file has become readable. After `invalidate` (lines 209-211) a read fetches again and succeeds. |
| Protocol.MessageHandler.constructor | hexite-vscode/src/protocol.ts:82-92 | The counter starts at 0, with nothing pending or posted. |
| Protocol.MessageHandler.Post | hexite-vscode/src/protocol.ts:96 | The shared `messageIdCounter++` of lines 96, 101 and 115: an envelope is posted with the current counter as its id, and the counter goes up by one. So ids are 0, 1, 2, … in posting order (`Valid`). |
| Protocol.MessageHandler.SendEvent | hexite-vscode/src/protocol.ts:95-97 | Posts the body with the next id and no `inReplyTo`. Nothing becomes pending. |
| Protocol.MessageHandler.SendRequest | hexite-vscode/src/protocol.ts:100-109 | Posts with the next id. That id was not pending before, and it alone becomes pending. |
| Protocol.MessageHandler.HandleMessage | hexite-vscode/src/protocol.ts:121-130 | A message with `inReplyTo` (0 included) resolves the pending request it names, if any, and removes it. Any other message goes to the handler, even when its id equals a pending one. Ids stay 0, 1, 2, … in posting order, and no request resolves twice. |
| Protocol.MessageHandler.HandlerSettled | hexite-vscode/src/protocol.ts:112-118 | A defined answer is posted with the next id, replying to the incoming message's id. An undefined answer posts nothing (line 127). |
| Protocol.EventDoesNotAnswerRequest | hexite-vscode/src/protocol.ts:121-124 | An event whose id equals a pending request's id leaves it pending. The request resolves only with its own reply, and a second reply changes nothing. |
| Protocol.ReplyTakesNextId | hexite-vscode/src/protocol.ts:112-118 | Replies share the counter with events: after event 0, the reply gets id 1 and names the request's id. |
| JsBuiltins.Slice | hexite-vscode/src/hexDocument.ts:41 | `slice(begin, end)` with negative indices counted from the end, clamped to the length. |
| JsBuiltins.Split | hexite-vscode/src/hexDocument.ts:93 | `split` returns at least one piece, and no piece holds the separator. |
| JsBuiltins.Join | hexite-vscode/src/hexDocument.ts:98 | `join` with a one-character separator. `JoinSplit` and `SplitJoin` show it inverts `split`. |
| JsBuiltins.JoinSplit | hexite-vscode/src/hexDocument.ts:95-98 | Joining the pieces of a split gives back the string. |
| JsBuiltins.SplitJoin | hexite-vscode/src/hexDocument.ts:95-98 | Splitting the join of separator-free pieces gives back the pieces. |
| JsBuiltins.NoSeparator | hexite-vscode/src/hexDocument.ts:93 | A string without the separator splits into itself alone. |
| JsBuiltins.FirstSeparator | hexite-vscode/src/hexDocument.ts:95-96 | In `a + sep + b` with no separator in `a`, the first separator is at `|a|`. |
| JsBuiltins.SplitFirst | hexite-vscode/src/hexDocument.ts:95-98 | The first piece is the text before the first separator, and the rest rejoins to the text after it. |
| JsBuiltins.ToLowerCase | hexite-vscode/src/hexDocument.ts:109 | `toLowerCase` keeps the length and maps each ASCII upper-case letter to lower case. |
| JsBuiltins.ParseInt | hexite-vscode/src/hexDocument.ts:111-112 | `parseInt` for radix 10 and 16: leading white space skipped, an optional sign, for radix 16 an optional `0x`/`0X`, then the longest digit run, and `NaN` when that run is empty. `ParseIntFormat` and `ParseIntDigits` state its value on digit strings. |
| JsBuiltins.DigitChar | hexite-vscode/src/hexDocument.ts:111-112 | A reference definition, not code from the source: the digit character `Number.prototype.toString` writes for `d`. It has value `d` and is lower case. It serves as the inverse that the `parseInt` round trip is stated against. |
| JsBuiltins.Format | hexite-vscode/src/hexDocument.ts:111-112 | A reference definition, not code from the source: `n.toString(radix)`, the inverse the `parseInt` round trip is stated against. The digits are non-empty, lower case, and all digits of that radix. |
| JsBuiltins.DigitsValueFormat | hexite-vscode/src/hexDocument.ts:111-112 | The digits of `n` have value `n`. |
| JsBuiltins.ParseIntFormat | hexite-vscode/src/hexDocument.ts:111-112 | `parseInt` of the digits of `n` is `n`, in radix 10 and 16. |
| JsBuiltins.ParseIntDigits | hexite-vscode/src/hexDocument.ts:111-112 | A string made of digits alone parses as their value. |
| JsBuiltins.AllDigitsRun | hexite-vscode/src/hexDocument.ts:111-112 | A string of digits is its own longest digit run. |
| HexDocument.Pairs | hexite-vscode/src/hexDocument.ts:89-93 | An empty query string has no pairs. Otherwise one leading `?` is dropped and the rest is split on `&`. |
| HexDocument.Name | hexite-vscode/src/hexDocument.ts:95-96 | The name of a pair (`pair.shift()`), the first piece of its split on `=`. It holds no `=`. |
| HexDocument.Value | hexite-vscode/src/hexDocument.ts:98 | The value of a pair: the remaining pieces joined with `=` again. `NameValue` shows that name, `=` and value give back the pair. |
| HexDocument.Keyable | hexite-vscode/src/hexDocument.ts:97-98 | A name becomes a key when it is truthy (non-empty). The one exception is `__proto__`: assigning a string to it on a plain object is ignored. |
| HexDocument.QueryMap | hexite-vscode/src/hexDocument.ts:94-100 | The dictionary the pair loop builds, later pairs overwriting earlier ones. Every key is keyable. `QueryMapKeys` and `QueryMapLast` characterise its keys and values. |
| HexDocument.NameValue | hexite-vscode/src/hexDocument.ts:95-98 | A pair splits at its first `=`. The name holds no `=`, the value may, and a pair without `=` is all name with an empty value. |
| HexDocument.QueryMapKeys | hexite-vscode/src/hexDocument.ts:94-100 | A key is in the dictionary exactly when some pair has that name and the name is non-empty (and not `__proto__`). |
| HexDocument.QueryMapLast | hexite-vscode/src/hexDocument.ts:94-100 | A key's value is the value of the last pair with that name. |
| HexDocument.LaterPairWins | hexite-vscode/src/hexDocument.ts:98 | A later pair overwrites an earlier one with the same name. |
| HexDocument.ParseQuery | hexite-vscode/src/hexDocument.ts:88-103 | The loop builds exactly the dictionary `QueryMap` of the query string's pairs. `""` and `"?"` give the empty dictionary. |
| HexDocument.OneQuestionMark | hexite-vscode/src/hexDocument.ts:91-93 | Exactly one leading `?` is dropped. Without a second `?`, a query with or without it gives the same dictionary. |
| HexDocument.OnePair | hexite-vscode/src/hexDocument.ts:88-103 | `?name=value` with no `&` or `=` in the name and no `&` in the value gives exactly `{name: value}`. |
| HexDocument.ParseHexOrDecInt | hexite-vscode/src/hexDocument.ts:108-113 | Lower-cased, then `parseInt` in base 16 after a `0x` prefix and in base 10 otherwise. `ParseHex`, `ParseDec` and `UpperPrefix` state its results. |
| HexDocument.LowerCaseKeeps | hexite-vscode/src/hexDocument.ts:109 | Lower-casing leaves a string without upper-case letters unchanged. |
| HexDocument.ParseHex | hexite-vscode/src/hexDocument.ts:108-113 | `0x` followed by the hexadecimal digits of `n` parses as `n`. |
| HexDocument.ParseDec | hexite-vscode/src/hexDocument.ts:108-113 | The decimal digits of `n` parse as `n`. |
| HexDocument.UpperPrefix | hexite-vscode/src/hexDocument.ts:109-110 | `0X` is read like `0x`. |
| HexDocument.BaseAddressKeyIsPlain | hexite-vscode/src/hexDocument.ts:13 | The key `baseAddress` can be a dictionary key and holds no `&` or `=`. |
| HexDocument.BaseAddress | hexite-vscode/src/hexDocument.ts:13-15 | The value under `baseAddress`, parsed, when it is present and non-empty (truthy), and 0 otherwise. `BaseAddressDefault`, `BaseAddressOf` and `BaseAddressHex` state it for whole query strings. |
| HexDocument.BaseAddressDefault | hexite-vscode/src/hexDocument.ts:12-15 | With no pair named `baseAddress`, the base address is 0. |
| HexDocument.BaseAddressOf | hexite-vscode/src/hexDocument.ts:12-15 | `?baseAddress=value` gives the parsed value, or 0 when the value is empty (an empty string is falsy). |
| HexDocument.BaseAddressHex | hexite-vscode/src/hexDocument.ts:12-15 | `?baseAddress=0x…` gives the number the hexadecimal digits spell. |
| HexDocument.KeepReadAsWritten | hexite-vscode/src/hexDocument.ts:41 | For a count within the buffer, the first `read` bytes. For a negative count, the first `length + read` bytes (or none). |
| HexDocument.KeepRead | hexite-vscode/src/hexDocument.ts:41 | With the count clamped at 0, the first `read` bytes, and none for a negative count. |
| HexDocument.KeepReadAgrees | hexite-vscode/src/hexDocument.ts:41 | The two agree on every non-negative count, which covers every count `fd.read` reports. |
| HexDocument.HexDocument.constructor | hexite-vscode/src/hexDocument.ts:23-28 | The document keeps its accessor and base address. |
| HexDocument.HexDocument.Create | hexite-vscode/src/hexDocument.ts:6-21 | The document's base address is the one chosen from the parsed URI query. |
| HexDocument.HexDocument.ReadBufferAsWritten | hexite-vscode/src/hexDocument.ts:38-42 | It fails with the error of a failed fetch. Within the file it returns the bytes of the range that exist. Past the end it returns `length - (offset - size)` zero bytes, or none. |
| HexDocument.HexDocument.ReadBuffer | hexite-vscode/src/hexDocument.ts:38-42 | It fails with the error of a failed fetch. Otherwise, with the count clamped, it returns exactly the bytes of `[offset, offset + length)` that the file has. |
| HexDocument.ShortAndPastEndReads | hexite-vscode/src/hexDocument.ts:38-42 | Reading 4 bytes from a 2-byte file gives the 2 bytes. Reading 10 bytes at offset 6 of a 4-byte file gives 8 zero bytes as written, and nothing once clamped. |
| Util.GetCorrectArrayBufferAsWritten | hexite-vscode/src/util.ts:15-18 | The buffer itself when the view spans it, otherwise its first `byteLength` bytes. That is the view's contents only at offset 0. |
| Util.OffsetViewSendsWrongBytes | hexite-vscode/src/util.ts:15-18 | The view of byte 1 of `[1, 2]` is sent as `[1]`, while it shows `[2]`. |
| Util.GetCorrectArrayBuffer | hexite-vscode/src/util.ts:15-18 | Exactly the view's contents, and the buffer itself when the view spans it. |
| Util.AgreeAtOffsetZero | hexite-vscode/src/util.ts:15-18 | For views at offset 0 both versions agree. |
| Scroll.RoundingDiv | hexite-scroll/src/lib.rs:87-89 | The quotient is `a / b` rounded to nearest, an exact half rounded up. |
| Scroll.RoundingDivUnique | hexite-scroll/src/lib.rs:87-89 | No other integer meets that rounding bound. |
| Scroll.Container.constructor | hexite-scroll/src/lib.rs:38-49 | One item per chunk, one rendered item, the viewport one item high, scrolled to 0. |
| Scroll.Container.OnResize | hexite-scroll/src/lib.rs:51-55 | The chunk is the viewport height in items, rounded. Three chunks are rendered, never more than the list holds. |
| Scroll.Container.ItemAtScroll | hexite-scroll/src/lib.rs:64 | The item nearest to the scroll position: its top lies within half an item of the position, a tie rounding down the list. |
| Scroll.Container.QueryDefinedAt | hexite-scroll/src/lib.rs:63-77 | The conditions under which no `u32` step of `query` panics in a debug build: no division by zero at line 64 or 65, no overflow at lines 64-69, and no underflow of `num_items - last_item` at line 70. |
| Scroll.Container.Query | hexite-scroll/src/lib.rs:63-77 | Exactly `rendered_items` items are rendered, starting one chunk before the chunk nearest to the scroll position and ending within the list. The blank space before and after is the height of the items left out on each side. |
| Scroll.Container.OnScroll | hexite-scroll/src/lib.rs:57-61 | Stores the position and returns `query` for it. Nothing else changes. |
| Scroll.FirstItem | hexite-scroll/src/lib.rs:66 | `chunk.saturating_sub(1) * items_per_chunk` is never negative. |
| Scroll.ChunkStart | hexite-scroll/src/lib.rs:64-66 | The first item is a chunk boundary at or before the item at the scroll position, and less than three chunks before it. |
| Scroll.RenderingStartsOnChunk | hexite-scroll/src/lib.rs:63-77 | `query` starts on a chunk boundary, at or before the item at the scroll position and less than three chunks before it. |
| Scroll.VirtualSpaceAddsUp | hexite-scroll/src/lib.rs:69-70 | The space before, the rendered items and the space after add up to the height of the whole list. |
| Scroll.ScrolledItemIsRendered | hexite-scroll/src/lib.rs:63-77 | While three chunks are rendered, the item at the scroll position is among them. |
| Scroll.TopChunksStartAtZero | hexite-scroll/src/lib.rs:66 | Where the position rounds to chunk 0 or 1, rendering starts at item 0 (the saturating subtraction). |
| Scroll.StartEdge | hexite-scroll/src/lib.rs:95-111 | The layouts `test_start_edge` prints: positions 0, 15 and 60 render items 0..15 with 9850 blank after them; positions 80 and 120 render 5..20 with 50 before and 9800 after. |
| Scroll.BottomEdgeUnderflows | hexite-scroll/src/lib.rs:66-70 | In `test_start_edge`'s setting, scroll position 9950 puts the rendered range at items 990..1005 of 1000, so `query` is not defined there (`num_items - last_item` underflows). At 9900 it is defined. |
| Scroll.Container.QueryClamped | hexite-scroll/src/lib.rs:63-77 | `query` with `first_item` clamped to `num_items - rendered_items`. Exactly `rendered_items` items are rendered and the range always ends within the list. The blank space before and after is the height of the items left out on each side. |
| Scroll.Container.OnScrollClamped | hexite-scroll/src/lib.rs:57-61 | `on_scroll` answering with the clamped query. Nothing else changes. |
| Scroll.ClampedAgreesWithQuery | hexite-scroll/src/lib.rs:63-77 | Wherever `query` is defined, the clamped query gives the same layout. |
| Scroll.ClampedSpaceAddsUp | hexite-scroll/src/lib.rs:69-70 | At every position the clamped layout adds up to the height of the whole list. |
| Scroll.ClampedScrolledItemIsRendered | hexite-scroll/src/lib.rs:51-77 | With the chunks `on_resize` sets up, the item at any scroll position within the list is among the items rendered. That includes the bottom of the list. |
| Scroll.BottomEdge | hexite-scroll/src/lib.rs:95-111 | `test_start_edge`'s list scrolled to 9900 and to 9950: the clamped query renders the last 15 items (985..1000) with 9850 blank before them and none after. |

## Left out

- I/O is replaced by parameters and events.
  - `readFile`, `fs.promises.open`, `fd.stat`, `fd.read` and the file watchers are not modelled as calls.
  - A `SimpleFileAccessor` read takes how a `readFile` started now would settle as the parameter `fetched`: the bytes, or an error code.
  - A container's open result and an operation's result arrive through `OpenSucceeded`/`OpenFailed` and `HeadCompleted`.
- Timers are a flag. The one-second delay is not modelled, only whether the idle close is pending.
- Interleaving of promises is modelled only at the suspension points of `process`.
  - `close` is atomic: the await on the handle's close is not a suspension point.
  - Closing the handle (in `close` or the idle timer) is modelled as dropping it.
- `watch` on every accessor, `SimpleFileAccessor.getSize` (a `stat` through the VS Code file system) and the untitled and debug-memory accessors are not part of this model. `accessFile`, which chooses the accessor, is not part of it either.
- FileSystemAdaptor.NativeFileAccessor.Read: the bytes `fd.read` writes into `target` are not modelled, only the borrow. What the promise resolves with is the count the environment reports through `HeadCompleted`.
- HexDocument.HexDocument.ReadBuffer: modelled over a `SimpleFileAccessor` only. With a native accessor the count `fd.read` reports is never negative, and `KeepReadAgrees` shows both versions agree then.
- HexDocument.HexDocument.Create: `accessFile` and the document's events (`onDidDispose`, `onDidRevert`), `dispose`, `size` and `revert` are not part of this model. Only the base address is.
- JavaScript numbers are unbounded integers here. Precision beyond 2^53 and fractional values are not modelled.
- JsBuiltins.ToLowerCase: only ASCII letters are mapped. Unicode case mapping is left out.
- JsBuiltins.DigitsValue: meaningful only on digits of the radix. Other characters count as their `DigitValue`, and `ParseInt` only applies it to digit runs.
- JsBuiltins.ParseInt: only radix 10 and 16, the two that are used.
- Buffers are values. Whether `readBuffer` and `getCorrectArrayBuffer` share or copy memory, and the identity of `ArrayBuffer`s, are not modelled.
- Protocol.MessageHandler.HandlerSettled: the source posts a reply when the answer is truthy (`reply && …`, protocol.ts:127); the model, generic over the body type, posts one when the answer is present. Every body type the extension uses is an object, so the two coincide.
- Protocol: a handler promise that rejects is treated like one that answers `undefined`, since no reply is sent in either case. `reject` on pending requests is never called by the code and is not modelled. Message bodies are opaque except in the two scenarios.
- Scroll: a debug build panics on `u32` overflow, underflow and division by zero. These are preconditions here (`QueryDefinedAt`, and the requires of `OnResize` and `RoundingDiv`). The wrap-around of a release build is not modelled. One of these panics is shown reachable in ordinary use: the underflow at the bottom of a list, listed under Findings. Another is a viewport less than half an item high: `on_resize` then sets `items_per_chunk` to 0, and `query` divides by it (lib.rs:53, 65). The model excludes it through `QueryDefinedAt` and does not exhibit it.

## Findings

| source | as written | input that shows it | evidently intended | confidence | as-written member | corrected member |
|---|---|---|---|---|---|---|
| hexite-vscode/src/hexDocument.ts:38-42 with hexite-vscode/src/fileSystemAdaptor.ts:202-207 | `SimpleFileAccessor.read` returns the negative `size - offset` past the end of the file. `target.slice(0, read)` then counts from the end and returns `length + read` zero bytes. | A 4-byte file, `readBuffer(6, 10)`: 8 zero bytes. | No bytes past the end of the file: the count clamped at 0. | not executed | HexDocument.HexDocument.ReadBufferAsWritten, HexDocument.ShortAndPastEndReads | HexDocument.HexDocument.ReadBuffer |
| hexite-vscode/src/util.ts:15-18 | A partial view is copied from offset 0 of its buffer, not from `byteOffset`. This is latent: `readBuffer` only returns views at offset 0. | Buffer `[1, 2]`, `byteOffset` 1, `byteLength` 1: sent as `[1]`. | The view's own bytes, `[2]`. | not executed | Util.GetCorrectArrayBufferAsWritten, Util.OffsetViewSendsWrongBytes | Util.GetCorrectArrayBuffer |
| hexite-scroll/src/lib.rs:66-70 | `first_item` is never capped, so near the bottom of a list `last_item = first_item + rendered_items` passes `num_items`. `num_items - last_item` then underflows: a panic in a debug build, a wrap-around in a release build. | 1000 items of height 10 and a viewport of 50, as in `test_start_edge`. Scroll position 9950 gives item 995, chunk 199, `first_item` 990 and `last_item` 1005. Every position from 9925 on does this. | The last chunk rendered ends at the last item: `first_item` capped at `num_items - rendered_items`. | not executed | Scroll.BottomEdgeUnderflows, Scroll.Container.Query | Scroll.Container.QueryClamped, Scroll.ClampedSpaceAddsUp, Scroll.ClampedScrolledItemIsRendered |
