# Verified model of the CUDA remoting stack

The system lets a program in a virtual machine use a GPU on the host. Hooks in the guest replace the CUDA
driver's functions. Each hook serialises its arguments, sends them over a socket, and waits for one reply of
fixed size; bulk data travels through a shared staging buffer. The host decodes each command, makes the driver
call, and answers. The claim that everything else serves is *transparency*: to the application, remoted calls
are direct driver calls.

This project models that stack in Dafny and proves the claim, together with the properties it rests on. Verify
it with `dafny verify dfyconfig.toml`.

## How the model is laid out

- `Bytes`: bytes, machine words, little-endian layout, `memcpy`.
- `Transport`: the partial-send and partial-receive loops (class `VsockHandle`) against any sequence of answers
  of the operating system.
- `RequestCodec`: `Serializer` and `Deserializer` over their fixed buffers. Decoded strings and kernel arguments
  are positions in the receive buffer, as in the source, and not copies.
- `ReplyCodec`: `Response`, with the branch that each C++ type selects in `operator<<` and `operator>>`.
- `Driver`: the CUDA driver as an arbitrary function from device state and call to outcome, and `DirectStep` and
  `DirectRun`, what calling it without remoting does. A `Program` picks each call from its memory and the
  result codes so far, so "every call sequence" includes every adaptive one.
- `Protocol`: one remoted call as functions. `Message` is what a hook sends, `Serve` what the host makes of its
  receive buffer, `Finish` what the hook does with reply and staging.
- `Remoting`: what a run of remoted calls does, failing calls included. A hook writes through its out-pointer
  even when the driver did not; `RemoteStep` is the direct step with that leftover. This module proves exactly
  when the leftovers cannot be seen.
- `Transparency`: one remoted call, from message to reply, is one `RemoteStep`.
- `Machine`: both sides as state machines with sends and receives cut anywhere and steps in any order. Framing,
  progress and the sharing of staging are proved here for every driver and every application.
- `Refinement`: the two machines against the remoted run, and so against direct execution.
- `GpuInstance` and `CudaClient`: the same operations as classes with the source's fields. Their methods are
  proved to compute `Serve`, `Message` and `Finish` in place, in the arrays that both sides share.
- `CommandBuffer`: the two-semaphore rendezvous, each semaphore operation and each access to a shared cell a
  step of its own.
- `PtxRegex` and `PtxPrototype`: the two regular expressions and the prototype parser, on the characters of each line.
- `VectorAdd`: the shipped kernel, instruction by instruction, on a grid of interleaved threads; correct on the grids
  that the callers use, and what it does on every other.
- `RemotedKernel`: the application of the test program as a whole: copy two arrays in, load, look up and launch
  `vectorAdd`, copy the sums out.
- `PinnedMemory`: the bump allocator and the address translation.

The results to read first are `Refinement.RemotingRefinesDirect`, `Refinement.FirstLeftoverShows`,
`Remoting.RunTransparentIff`, `RemotedKernel.RemotedSums`, `Machine.ExactlyOnce`, `Machine.RunsAreBounded`,
`CudaClient.Hooks.RunApplication`, `CommandBuffer.RendezvousSafety`, `CommandBuffer.EveryPushReturns`,
`VectorAdd.VectorAddCorrect`, `VectorAdd.GuardDecides`, `PtxPrototype.ParseUndoesPrint`, `PtxPrototype.ParsedRightIff`,
`PtxPrototype.HangsIffUnclosed` and `ReplyCodec.Lockstep`.

## What the code does not check

The source relies on each of these without enforcing it. The model states them as preconditions, most of them in
`Transparency.WellFormed` and `Transparency.Honest`. Framing and progress (`Machine`) need only that a request
fits its buffer.

- One guest per host: every `GPUInstance` maps the same files (`interception/gpu_instance.h:42-44`).
- One `read` returns the whole command (`interception/gpu_instance.h:101`); `Machine` enables `Pull` only once
  the message has been sent in full. A read that comes in the middle of a message makes the host pull two commands
  for one call (`Machine.EarlyReadPullsTwice`).
- A module is loaded once: parameters are appended and never cleared (`interception/compiler.h:81`).
  `PtxPrototype.ReloadDoubles` shows what a second load does.
- Every header is closed by a line `)` (`interception/compiler.h:75`). `PtxPrototype.HangsIffUnclosed` shows
  that parsing ends exactly then, and `Machine.HangsOnlyIfUnclosed` that a guest hangs for no other reason.
- Every kernel of the file has parameters. The header of a kernel without any closes on its own line, and the parser
  then takes a later kernel's parameters for it or does not end; a compiled file is parsed right exactly when it has
  no such kernel (`PtxPrototype.ParsedRightIff`).
- The path given to `cuModuleLoad` is the shipped file: both sides ignore the argument
  (`interception/interception.cpp:224`, `interception/gpu_instance.cpp:243-244`).
- Copies fit the 9 MiB staging buffer; only `to_device` checks it (`interception/stream.h:432`).
- Copies use pointers that do not look pinned. Before any registration the base is null, so the lowest
  20971521 addresses do (`PinnedMemory.NullStartCatchesLowAddresses`). A copy-out to a pinned destination can be
  relied on only if it is empty (`Transparency.PinnedCopyOutTransparentIff`).
- A command pushed through the shared-memory buffer has at most 95 characters: the string has 96 bytes, and
  `strncpy` is not told so (`interception/shared_memory_manager.h:117-125`).
- Each kernel argument can be read at 8 bytes, whatever its type (`interception/interception.cpp:261`).
- A request fits the 10000-byte buffer; for a launch that is at most 1238 parameters
  (`Transparency.LaunchFitsIff`). Paths and kernel names are at most 9000 characters.
- The driver loads the module that the shipped file was printed from: behind a kernel's handle it reads the
  declared parameter types.
- An application that looks at an out-variable after a failed call sees what the hook wrote there.
  `Remoting.RunTransparentIff` says exactly which runs are direct all the same, and
  `Remoting.FailedAllocationShows` gives one that is not.

## Model

| member | source | states |
|---|---|---|
| Bytes.LEDigit | interception/stream.h:213-219 | byte `i` of a number copied into a message is its digit `i` to base 256, the lowest first |
| Transport.VsockHandle.Transmit | interception/stream.h:45-54 | puts the message on the stream in order, exactly as far as the answers of `send` allow; it succeeds if and only if the whole message is there |
| Transport.VsockHandle.Receive | interception/stream.h:56-72 | takes bytes from the front only, never more than asked, and leaves the rest; it succeeds if and only if it took exactly the asked count |
| Transport.ShortSendMeansFailedCall | interception/stream.h:47-50 | a message is cut short only by a failed system call, among the first `size` of them: every split of partial sends delivers it whole |
| Transport.ShortReceiveMeansFailureOrEnd | interception/stream.h:59-69 | a receive falls short only by a failed call or a stream that really is too short |
| Transport.BoundariesPreserved | interception/stream.h:45-72 | cutting the concatenation of messages by their sizes gives the messages back, with the rest of the stream untouched; the step from the loops below to whole messages |
| Transport.VsockHandle.TransmitAll | interception/stream.h:45-54 | one `transmit` after another puts the messages on the stream in order, whatever each call is answered; it cannot fail if no system call does |
| Transport.VsockHandle.ReceiveAll | interception/stream.h:56-72 | one `receive` for each size cuts exactly those sizes off the front, in order, and fails only if a call does or the stream is too short |
| Transport.Relay | interception/stream.h:45-72 | messages sent by the one loop and received by the other come out whole, in order and complete, however the kernel splits every send and every receive |
| RequestCodec.DecodeUndoesEncode | interception/stream.h:303-350 | decoding an argument at its own type, anywhere in a buffer, gives the argument back through the decoded pointers and stops exactly at its end |
| RequestCodec.DecodeAllUndoesEncodeAll | interception/stream.h:213-273 | the same for every argument list, with nested tuples, strings and 64-bit vectors, whatever bytes follow the message |
| RequestCodec.EncodeInjective | interception/stream.h:213-273 | two argument lists of the same types never share a message |
| RequestCodec.EncodePrefixFree | interception/stream.h:213-273 | no message is a proper prefix of another of the same types, so none needs an outer length |
| RequestCodec.PointeesDisjoint | interception/stream.h:311-327 | each string with its terminator and each kernel slot lies inside its argument's bytes, in order, sharing no byte |
| RequestCodec.AllPointeesDisjoint | interception/stream.h:340-350 | all pointers decoded from one message are pairwise disjoint ranges inside that message |
| RequestCodec.PointeesAre | interception/stream.h:311-350 | the pointer of a string leads to all of its characters and the terminator, and pointer `i` of a vector to its word `i` |
| RequestCodec.WritesInBoundsIffFits | interception/stream.h:213-273 | each `memcpy` of one argument stays in the send buffer if and only if the argument's end does |
| RequestCodec.AllWritesInBoundsIffFits | interception/stream.h:20 | nothing checks the send buffer: every write of a message is in bounds exactly when its total length is at most 10000 |
| RequestCodec.WritesTile | interception/stream.h:213-249 | the `memcpy` calls of one argument cover its encoding, each byte once and nothing else |
| RequestCodec.AllWritesTile | interception/stream.h:254-273 | the same for a whole message |
| RequestCodec.Serializer.PutBytes | interception/stream.h:213-219 | appends to the message and leaves what is there as it was |
| RequestCodec.Serializer.PutCStr | interception/stream.h:222-234 | appends the string's encoding with length and terminator, by three writes |
| RequestCodec.Serializer.PutWords | interception/stream.h:266-273 | appends the vector's encoding by two writes |
| RequestCodec.Serializer.PutAll | interception/stream.h:254-264 | the buffer in place ends up holding the encoding that the round trip is about |
| RequestCodec.Serializer.Clean | interception/stream.h:282 | the next message starts from an empty one |
| RequestCodec.Deserializer.Fill | interception/gpu_instance.h:100-101 | one read overwrites the front of the buffer; bytes of earlier commands stay behind it |
| RequestCodec.Deserializer.GetSlots | interception/stream.h:340-350 | the loop hands out one pointer into the buffer for each 8-byte word and copies none |
| RequestCodec.Deserializer.GetAll | interception/stream.h:303-336 | decodes as the specification does, moves only the cursor and never writes the buffer |
| ReplyCodec.ElementStays | interception/stream.h:142-165 | every element of a reply stays in its place, whatever is written after it |
| ReplyCodec.OneInStep | interception/stream.h:116-140 | for a compatible pair of written and read types, one read delivers the written bytes and moves as far as the write did |
| ReplyCodec.InStep | interception/stream.h:115-165 | after each element the reader stands where the writer stood after it |
| ReplyCodec.Lockstep | interception/stream.h:115-165 | for every compatible pair of lists both cursors agree after each written element, every out-pointer gets what was written for it, names of any length included, and past the last written element the reader only skips |
| ReplyCodec.OverrunDeliversStale | interception/stream.h:115-165 | the compatibility relation is exact at its end: the first element read past the writer that is not skipped delivers what the buffer held there before this reply |
| ReplyCodec.SkipsReadNothing | interception/stream.h:117-136 | a reader may run past the writer over skipped elements without touching memory |
| ReplyCodec.ScalarReadByPointer | interception/stream.h:104-113 | the scalar slot and the return area are the same bytes: a scalar written by the host is read by an 8-byte pointer, with skipped elements after it |
| ReplyCodec.ExportTableNotInStep | interception/gpu_instance.cpp:350-358 | the export-table reply is outside the relation: nothing is written where a pointer is taken, so the pointer leads to the bytes of earlier replies |
| ReplyCodec.Response.SetResult | interception/stream.h:112 | the code is the first four bytes of the reply, and nothing else changes |
| ReplyCodec.Response.SetScalar | interception/stream.h:113 | the scalar is the eight bytes behind the code, and nothing else changes |
| ReplyCodec.Response.Put | interception/stream.h:142-165 | each branch of the writer, in place; a handle by value moves the cursor and writes nothing |
| ReplyCodec.Response.PutText | interception/stream.h:146-151 | a name goes out with a length that counts its terminator |
| ReplyCodec.Response.PutAll | interception/stream.h:173-177 | writing a tuple leaves in the reply what the lockstep theorem reads |
| ReplyCodec.Response.Get | interception/stream.h:115-140 | each branch of the reader delivers what the reading specification says and writes nothing |
| ReplyCodec.Response.GetAll | interception/stream.h:167-171 | reading a list delivers element by element |
| CommandBuffer.GuestKeepsInv | interception/shared_memory_manager.h:184-188 | every guest step keeps the rendezvous invariant |
| CommandBuffer.HostKeepsInv | interception/shared_memory_manager.h:191-202 | every host step keeps it, for every driver |
| CommandBuffer.InvAlways | interception/shared_memory_manager.h:184-202 | it holds in every state of every interleaving |
| CommandBuffer.RendezvousSafety | interception/shared_memory_manager.h:184-202 | in every interleaving the guest never writes the string while the host copies it nor reads an answer being written, the string being copied is the command just pushed with its size and terminator, pulled commands are a prefix of pushed ones lagging by at most one, and the answer read after a push is that command's |
| CommandBuffer.NeverStuck | interception/shared_memory_manager.h:186-192 | until all pushes have returned, one side can move |
| CommandBuffer.StepTakesOne | interception/shared_memory_manager.h:123-126 | each move takes exactly one off the remaining step count, the character copies included |
| CommandBuffer.StepsCount | interception/shared_memory_manager.h:184-202 | along any run of enabled moves the remaining count is the total less the moves made |
| CommandBuffer.EveryPushReturns | interception/shared_memory_manager.h:184-202 | any run of enabled moves is bounded by the script's total cost, and all pushes have returned, each with its own answer, if and only if the run has that length |
| CommandBuffer.SharedCommandBuffer.GuestStep | interception/shared_memory_manager.h:184-188 | one step of `push` in the shared cells is the guest's transition |
| CommandBuffer.SharedCommandBuffer.HostStep | interception/shared_memory_manager.h:191-202 | one step of `pull`, answering and `impl_finish` is the host's transition |
| CommandBuffer.SharedCommandBuffer.Run | interception/shared_memory_manager.h:167-202 | running any schedule on the shared object reaches the schedule's state, with the invariant |
| PtxRegex.HeaderIff | interception/compiler.h:92 | a header is exactly a line with `.entry` anywhere in it |
| PtxRegex.WordEndIff | interception/compiler.h:68 | the greedy `\w+` takes exactly the run of digits, letters and underscores, by their character codes |
| PtxRegex.SpaceEndIff | interception/compiler.h:77 | the greedy `\s+` takes exactly the run of tabs, line separators and blanks |
| PtxRegex.EntryAtIff | interception/compiler.h:68 | matching at a position gives a name exactly when `.entry`, one blank, that name of word characters and `(` stand there |
| PtxRegex.ParamAtIff | interception/compiler.h:77 | matching at a position gives a type exactly when `.param`, blanks of any kind and number, and the type with its dot, as long as it goes, stand there |
| PtxRegex.EntryNameIsLeftmost | interception/compiler.h:71-72 | the name is the group of the leftmost match in the line, and empty exactly when there is no match |
| PtxRegex.ParamTypeIsLeftmost | interception/compiler.h:78-80 | the type is the group of the leftmost match, and there is none exactly when there is no match |
| PtxPrototype.ConvertEndsIffClosed | interception/compiler.h:75-83 | the inner loop ends if and only if some remaining line is exactly `)`, and consumes up to the first one |
| PtxPrototype.HangsIffUnclosed | interception/compiler.h:67-94 | parsing a file ends if and only if every header line is followed somewhere by a line `)` |
| PtxPrototype.ConvertAppends | interception/compiler.h:75-83 | the types found under a header do not depend on what was known; they are appended to it |
| PtxPrototype.ParseAppends | interception/compiler.h:46 | adding a module appends its own lists, name by name, to whatever was known before |
| PtxPrototype.LoadTwo | interception/compiler.h:46 | after two modules each name has both lists in load order |
| PtxPrototype.DisjointModulesCommute | interception/compiler.h:46 | modules with no name in common can be loaded in either order |
| PtxPrototype.ReloadDoubles | interception/compiler.h:81 | loading a module again doubles every list of it |
| PtxPrototype.HeaderFound | interception/compiler.h:68-72 | the regular expression finds the name in a header line, whatever follows its parenthesis, for every name of digits, letters and underscores |
| PtxPrototype.HeaderParsed | interception/compiler.h:68-72 | the regular expression finds the name in a printed header |
| PtxPrototype.ParamParsed | interception/compiler.h:77-81 | and the type in a printed parameter line, which is never taken for the closing line |
| PtxPrototype.ParamsParsed | interception/compiler.h:75-83 | a printed parameter list yields its types in order and stops behind its `)` |
| PtxPrototype.KernelParsed | interception/compiler.h:89-94 | a printed header is consumed whole and adds its types to its kernel only |
| PtxPrototype.ParseUndoesPrint | interception/compiler.h:67-94 | for all kernels, with any plain lines around them, parsing what was printed gives each name exactly its declared types in order, and no other name anything |
| PtxPrototype.PrototypesRecovered | interception/compiler.h:67-94 | with distinct names a fresh parse gives each kernel its own types |
| PtxPrototype.CompiledHasBlocks | interception/compiler.h:75 | a file whose kernels all have parameters has every header closed on a line of its own |
| PtxPrototype.OpenHeaderSwallows | interception/compiler.h:75-83 | the inner loop of a header without a closing line reaches the end of the file or takes a later kernel's types for its own |
| PtxPrototype.BareHeaderMisread | interception/compiler.h:67-94 | a kernel without parameters ends up with some, or the parse does not end |
| PtxPrototype.ParsedRightIff | interception/compiler.h:67-94 | a file as the compiler prints it, with any lines between kernels that are neither header nor closing line, is parsed right if and only if every kernel has parameters |
| PtxPrototype.BareHeaderShows | interception/compiler.h:75-83 | one that is not: `first` has no parameters and is given the one of `second`, which is left with none |
| PtxPrototype.ShippedPrototype | vector_add.ptx:15-20 | the shipped header, amid any plain lines, declares and parses to three 64-bit and one 32-bit parameter |
| PtxPrototype.ShippedText | vector_add.ptx:15-20 | the module that these results are about prints as the header in the shipped file |
| PtxPrototype.TypeWidthInName | vector_add.ptx:16-19 | the width of a type is an eighth of the number in its name |
| PtxPrototype.CUFuncProto.Convert | interception/compiler.h:67-84 | the loop ends exactly when the file has a closing line, and then leaves table and file as specified |
| PtxPrototype.CUFuncProto.AddModule | interception/compiler.h:89-94 | loading ends exactly for files without an unclosed header, and computes the parse of the file, with names and types as `PtxRegex` finds them |
| PtxPrototype.CUFuncProto.GetParams | interception/compiler.h:41-44 | returns a kernel's types; asking for an unknown name enters it with none |
| VectorAdd.IndexIsBijection | vector_add.ptx:32-35 | threads of the grid and indexes below blocks * block size correspond one to one |
| VectorAdd.GuardExactIffNoWrap | vector_add.ptx:35-37 | signed 32-bit comparison keeps exactly the threads below N if and only if no index reaches 2^31; that the kernel compares so is `VectorAdd.GuardDecides` |
| VectorAdd.ExecFollows | vector_add.ptx:28-52 | for every grid, count and arrays: each instruction keeps what its thread knows, goes on as the guard says, and writes memory only as the store, at the thread's one cell |
| VectorAdd.GuardDecides | vector_add.ptx:36-37 | for every grid, count and arrays, in every interleaving: a thread stands where its own turns have taken it, past the branch at instruction 10 if its signed index is below the signed count, and at 21 otherwise |
| VectorAdd.OnlyOwnCellWritten | vector_add.ptx:40-49 | for every grid, count and arrays, in every interleaving: a turn changes memory exactly when it is turn 21 of a thread whose guard passed, and then only the cell at its signed index |
| VectorAdd.PassingThreadStores | vector_add.ptx:36-49 | a thread whose guard passes does execute that store in every interleaving which gives it its turns |
| VectorAdd.WrappedThreadStoresOutside | vector_add.ptx:35-49 | beyond that bound there is a thread that in every interleaving which gives it its turns executes its store, at an address outside the output |
| VectorAdd.GridSizeCovers | tests/test_firecracker/firecracker_test.cpp:56 | the callers' grid covers [0, N) and stays below 2^31 when N + T - 1 does |
| VectorAdd.ExecKeeps | vector_add.ptx:28-52 | each instruction keeps what its thread knows and moves it forward; only the store changes memory, and only the thread's own cell, to the source kernel's value |
| VectorAdd.TurnKeepsInv | vector_add.ptx:28-52 | each turn of any thread keeps the grid's invariant |
| VectorAdd.InvAlways | vector_add.ptx:28-52 | it holds in the middle of every interleaving |
| VectorAdd.TurnAdvances | vector_add.ptx:28-52 | a turn takes its own thread further and leaves every other where it is |
| VectorAdd.TurnsAdvance | vector_add.ptx:28-52 | no thread waits for another: after k turns it is at least k instructions on, or done |
| VectorAdd.VectorAddCorrect | tests/kernel_sample.cu:3-8 | in every instruction interleaving that gives each thread its turns, C[i] = A[i] + B[i] for every i below N, every thread has returned, and no other cell changed |
| VectorAdd.CallersGridIsSafe | tests/test_firecracker/firecracker_test.cpp:56 | for the callers' grid N + T - 1 < 2^31 is enough |
| VectorAdd.Grid.Step | vector_add.ptx:28-52 | executing one instruction on the machine's registers and memory is one turn, of which `VectorAdd.GuardDecides` and `VectorAdd.OnlyOwnCellWritten` say what it does on any launch |
| VectorAdd.Grid.Run | vector_add.ptx:28-52 | a running grid ends with the sums, and with everything else unchanged |
| PinnedMemory.OffsetMonotone | interception/stream.h:384-389 | a block ends before any later block starts |
| PinnedMemory.BlocksPartition | interception/stream.h:384-389 | registered blocks that fit in sum are in bounds and share no address |
| PinnedMemory.TranslationRespectsBlocks | interception/gpu_instance.h:89-96 | a range inside guest block i is recognised as pinned, goes to the same offsets of host block i, and touches no other block |
| PinnedMemory.RecognisedInsideIffNotEnd | interception/gpu_instance.h:90-91 | of the addresses recognised as pinned exactly one translates outside the area: the one past its end, by the inclusive bound |
| PinnedMemory.RecognisedIff | interception/gpu_instance.h:89-92 | recognised are exactly the 20971520 addresses from the base on and the one behind them |
| PinnedMemory.Pool.Register | interception/stream.h:384-389 | returns the next free address and remembers the block |
| PinnedMemory.Registrations.MemHostAlloc | interception/gpu_instance.cpp:328-329 | host blocks stay contiguous from the start, the position stays the sum of sizes, every block keeps its recorded size, and the first guest address becomes and stays the base |
| Protocol.DispatchFindsName | interception/gpu_instance.cpp:208-314 | each of the seven modelled handlers is selected by its own name and by no other text |
| Protocol.MessageLayout | interception/interception.cpp:194-267 | the message of every hook, byte for byte: the name of the function, then its arguments in C order, and for a launch the count and the words |
| Protocol.ScalarShowsVariable | interception/interception.cpp:256-262 | word `i` of a launch holds the 8 bytes of the variable that the application's pointer number `i` leads to |
| Protocol.StageStages | interception/stream.h:427-442 | a copy-in that `to_device` accepts, from a range of memory, is staged whole |
| Protocol.ArgumentsDecodedAs | interception/gpu_instance.cpp:289-291 | whatever the buffer holds, arguments decode to a tuple, and for a launch to slots behind it |
| Protocol.ReplyAlwaysReadable | interception/cuda_client.h:53-58 | whatever the reply holds, reading it at the hook's types stays inside it |
| Remoting.StepTransparentIff | interception/interception.cpp:194-241 | one call: remoted and direct execution agree in device, result and handles always, and in memory if and only if the driver delivered or the variable already held the leftover: zero for a handle, the uninitialised local for a module, stale staging for a copy |
| Remoting.DirectWithEveryDriverIff | interception/interception.cpp:194-241 | the same without knowing the driver's answer: a call looks direct with every driver if and only if its variable already holds the leftover |
| Remoting.TransparentRun | interception/interception.cpp:194-272 | a run of transparent calls is the direct run, staging included |
| Remoting.LastCallDecides | interception/interception.cpp:194-272 | once every earlier call was transparent, the application's memory, and all it sees, stays the direct run's exactly if the next call is |
| Remoting.RunTransparentIff | interception/interception.cpp:194-272 | the exact condition on runs: remoted and direct runs agree after each of n calls if and only if each of them delivers or finds its leftover in place |
| Remoting.FailedAllocationShows | interception/gpu_instance.cpp:213-217 | a concrete call that is not transparent: out of memory, and a variable that held 7 is 0 after the remoted call |
| Transparency.PrintedIsClosed | interception/compiler.h:75 | a file that the compiler printed has no unclosed header, so loading it ends |
| Transparency.HandlesKeepAgreeing | interception/interception.cpp:238-239 | every call, successful or not, keeps every handle tied to a kernel whose declared parameter types the driver reads |
| Transparency.LaunchCountsAgree | interception/interception.cpp:252-254 | at a launch the handle is known, and the parameters that the guest counts are the kernel's declared ones, at the widths that the driver reads |
| Transparency.FieldFound | interception/stream.h:304-309 | a field comes out of an argument tuple with the value it went in with |
| Transparency.ShapesAgree | interception/gpu_instance.cpp:22-28 | guest and host agree on the argument types of every function |
| Transparency.RequestSendable | interception/interception.cpp:265-267 | every well-formed call gives a decodable request that fits; a launch takes 91 bytes and 8 for each declared parameter |
| Transparency.LaunchFitsIff | interception/interception.cpp:265-267 | a launch's writes stay in the send buffer if and only if it has at most 1238 parameters |
| Transparency.HostFindsHandler | interception/gpu_instance.h:99-105 | the host finds the handler of the called name, with the arguments right behind the name |
| Transparency.HostDecodes | interception/gpu_instance.cpp:208-314 | the host decodes what the guest encoded; stale bytes behind the message do not matter |
| Transparency.SlotsShowParameters | interception/interception.cpp:256-262 | the driver reading width w from each slot of the receive buffer sees exactly the first w bytes of the application's parameter of the same number |
| Transparency.SlotShowsVariable | interception/interception.cpp:256-262 | in terms of guest memory alone: reading width w from slot i shows the first w bytes at the address stored little-endian in entry i of the pointer array |
| Transparency.SlotsInBuffer | interception/gpu_instance.cpp:289-293 | the slots are as many as the guest widened, inside the receive buffer, and disjoint |
| Transparency.HostCallIsDirect | interception/gpu_instance.cpp:208-314 | the driver call that the host makes of a message is the one that the application made; what that call holds is spelt out by `Transparency.LaunchServed` and `Transparency.LookupServed` |
| Transparency.PrepareMatches | interception/interception.cpp:225-228 | parsing the printed file gives the guest the declared parameters of every kernel, and a lookup changes none |
| Transparency.CodeReadBack | interception/stream.h:110-113 | the result code reaches the hook, whatever the handler wrote after it |
| Transparency.HandleReadBack | interception/gpu_instance.cpp:213-217 | a handle that the driver wrote, or what its box held if it wrote none, arrives byte for byte, read through a pointer or as the scalar |
| Transparency.FinishIsRemoteStep | interception/interception.cpp:194-272 | from the host's reply and staging the hook reaches the next state of the remoted run, whatever the driver did |
| Transparency.ServeMakesDirectCall | interception/gpu_instance.cpp:7-11 | on a guest's message the host runs exactly the application's driver call |
| Transparency.LaunchServed | interception/gpu_instance.cpp:286-295 | the launch that the host makes has the application's handle and geometry, and as parameter i the bytes of the variable that pointer i leads to, at the declared width |
| Transparency.LookupServed | interception/gpu_instance.cpp:274-285 | the lookup that the host makes asks for the application's own characters, one by one in their order |
| Transparency.CallIsRemoteStep | interception/interception.cpp:194-272 | one remoted call, from the bytes of its message to the application's memory, is one step of the remoted run, for every call and every driver |
| Transparency.RemoteHandlesKeepAgreeing | interception/interception.cpp:234-241 | and keeps every handle tied to its kernel |
| Transparency.CallTransparentIff | interception/interception.cpp:194-272 | for every well-formed call, result, device and handle table are always the direct call's, and memory is if and only if the driver delivered or the leftovers were already there |
| Transparency.PinnedCopyInServed | interception/gpu_instance.cpp:225-230 | a copy-in from pinned memory gives the driver the bytes of the pinned area from the pointer's offset on, and not staging |
| Transparency.PinnedCopyInIsDirect | interception/gpu_instance.cpp:225-230 | where the application's memory is the pinned area, that is the application's own driver call |
| Transparency.PinnedCopyOutServed | interception/gpu_instance.cpp:303-309 | a copy-out to pinned memory puts the driver's bytes at the pointer's offset of the pinned area, changes no other byte of it, and leaves staging alone |
| Transparency.PinnedCopyReadsBlock | interception/gpu_instance.h:89-96 | each byte of a copy-in from guest block i is the one that its translated address leads to, in host block i and in no other |
| Transparency.PinnedCopyOutTransparentIff | interception/interception.cpp:213-219 | a copy-out to a pinned destination looks direct for every content of staging if and only if its count is 0, because the host wrote elsewhere |
| Transparency.PinnedCopyOutSpoilt | interception/gpu_instance.cpp:305-308 | any staging that starts with another byte than the driver's spoils a pinned copy-out that is not empty |
| Transparency.PinnedCopyOutShows | interception/gpu_instance.cpp:305-308 | one that does not: the application reads 0 where the driver copied out 5 |
| Machine.CutAnywhere | interception/stream.h:45-72 | every first part of what is left to send, and of what has arrived, can move in one step, and what moves is exactly that part |
| Machine.FrameIssue | interception/cuda_client.h:32-40 | issuing any call that fits keeps the frame of the two machines, or ends the application in `to_device` |
| Machine.FrameSend | interception/stream.h:45-54 | sending any part of the message keeps it |
| Machine.FramePull | interception/gpu_instance.h:99-105 | one read takes the whole command and nothing else |
| Machine.FrameReceive | interception/stream.h:56-72 | receiving any part of the reply keeps it |
| Machine.FrameKeeps | interception/gpu_instance.h:57-105 | every step of either side keeps it, for every driver and call |
| Machine.FrameAlways | interception/gpu_instance.h:57-105 | it holds in every state of every interleaving and every cutting of the streams |
| Machine.WholeReplyIsHere | interception/cuda_client.h:53-58 | a hook returns with exactly the bytes of its own reply and nothing left on the socket |
| Machine.ExactlyOnce | interception/gpu_instance.h:57-105 | for every driver and every application, failing, pinned and ill-formed calls included: at most one request is outstanding, commands pulled and replies sent never drift apart, reply bytes on the way plus received are 2404 times the replies not yet returned, and between calls the socket is empty |
| Machine.StagingNotShared | interception/interception.cpp:205-219 | for every driver and every application the two sides are never both at a step that touches staging, and what the host is about to consume for a copy-in is what the guest's source holds |
| Machine.SomeoneCanMove | interception/cuda_client.h:32-58 | where neither side can move the application has stopped: it makes no call, was ended by `to_device`, or is parsing without end |
| Machine.StepsBoundFalls | interception/cuda_client.h:32-58 | every step but the issue of a new call brings the call in progress nearer its return |
| Machine.EveryCallReturns | interception/cuda_client.h:32-58 | for every driver and every application: no deadlock, and no call goes on forever |
| Machine.IssuesCounted | interception/cuda_client.h:32-58 | the calls that a run issues are those returned, the one in progress, and one that `to_device` ended |
| Machine.RunsAreBounded | interception/cuda_client.h:32-58 | for every driver and every application: a run in which no step is blocked has at most 12410 steps for each call it issues, all of these but at most one have returned, and where it cannot go on the application has stopped |
| Machine.EarlyReadPullsTwice | interception/gpu_instance.h:99-101 | wherever an early `read` cuts a message, two commands are pulled for one call and framing is lost |
| Machine.HangsOnlyIfUnclosed | interception/compiler.h:75 | a guest hangs in a module load if and only if the shipped file has an unclosed header |
| Refinement.IssueKeeps | interception/interception.cpp:205-207 | issuing a call stages its data and leaves the application's view and the device as they were |
| Refinement.MovesKeep | interception/stream.h:45-72 | moving bytes changes no value |
| Refinement.ExecuteKeeps | interception/gpu_instance.cpp:7-11 | serving the command takes device, staging and reply to the next point of the remoted run |
| Refinement.ReturnKeeps | interception/cuda_client.h:46-58 | the return of the hook takes the application there |
| Refinement.InvAlways | interception/gpu_instance.h:57-61 | guest, device and staging follow the remoted run in every state of every interleaving |
| Refinement.RunKeepsHandles | interception/interception.cpp:234-241 | along every run each handle stays tied to the kernel it was requested for |
| Refinement.StackIsRemoteRun | interception/interception.cpp:194-272 | for every application whose issued calls are well formed, every driver, schedule and cutting, what the application sees is the remoted run, failing calls included |
| Refinement.RemotingRefinesDirect | interception/interception.cpp:194-272 | and if the calls that have returned were transparent, memory, result codes and handles are those of the direct run of the same calls in the same order, and the device is too, one call further at most while a call is in progress |
| Refinement.FirstLeftoverShows | interception/interception.cpp:194-272 | and only then: when all calls but the last were transparent, the application sees the direct run's memory if and only if the last one was |
| Refinement.CopyOutStaged | interception/gpu_instance.cpp:303-309 | when a copy-out is about to return, staging holds what the driver copied out for it |
| Refinement.CopyInThenOutIsIdentity | interception/gpu_instance.cpp:225-309 | on a device that remembers what it accepted, copying in and out again brings the same bytes back through the whole stack, if the application sees both copies succeed |
| GpuInstance.GPUInstance.PullCommand | interception/gpu_instance.h:99-105 | one read refills the receive buffer, and the name is a pointer into it |
| GpuInstance.GPUInstance.ReturnResult | interception/gpu_instance.h:80-82 | as much of the reply goes out as the one `send` takes, its answer unseen: the whole of it if and only if the answer is at least 2404 |
| GpuInstance.GPUInstance.HandleMemAlloc | interception/gpu_instance.cpp:208-217 | the allocation handler, in place, leaves device, reply and staging as the protocol has them; the reply shows the code and the handle, or zero if the driver wrote none |
| GpuInstance.GPUInstance.HandleMemcpyHtoD | interception/gpu_instance.cpp:218-234 | the copy-in handler gives the driver the bytes of the pinned array from the pointer's offset on, or the front of staging for a pointer outside the area |
| GpuInstance.GPUInstance.HandleModuleLoad | interception/gpu_instance.cpp:235-249 | the module handler loads the shipped file; the reply shows the code and the module, or the uninitialised local if the driver wrote none |
| GpuInstance.GPUInstance.HandleModuleGetFunction | interception/gpu_instance.cpp:274-285 | the lookup handler answers the handle as the scalar, before the result code |
| GpuInstance.GPUInstance.HandleLaunchKernel | interception/gpu_instance.cpp:286-295 | the launch handler lets the driver read its parameters where they lie in the receive buffer |
| GpuInstance.GPUInstance.HandleMemcpyDtoH | interception/gpu_instance.cpp:296-314 | the copy-out handler puts the driver's bytes into the pinned array at the pointer's offset, or at the front of staging, and changes nothing else in either |
| GpuInstance.GPUInstance.HandleMemFree | interception/gpu_instance.h:22-28 | the generic handler answers the code and writes its arguments back |
| GpuInstance.GPUInstance.ImplementCudaFunction | interception/gpu_instance.cpp:7-422 | one command is served as the protocol says, with one reply; no decode, dispatch or reply step writes the receive buffer, so decoded pointers stay valid |
| CudaClient.CUDAClient.CallCudaFunction | interception/cuda_client.h:32-40 | sends the encoding of the arguments and nothing else, and leaves an empty message for the next call |
| CudaClient.CUDAClient.WaitRecv | interception/cuda_client.h:53-58 | takes one whole reply off the stream, delivers its elements and its code, and leaves the cursor at its start |
| CudaClient.CUDAClient.ToDevice | interception/stream.h:427-442 | stages data that fits, and stages nothing and refuses if it does not or its pointer is null |
| CudaClient.Hooks.CuMemAlloc | interception/interception.cpp:194 | after the hook application, device and staging are at the next point of the remoted run, whether or not the allocation succeeded |
| CudaClient.Hooks.CuMemFree | interception/interception.cpp:108 | the same for a free |
| CudaClient.Hooks.StageSource | interception/interception.cpp:206 | staging a source in memory succeeds exactly if the call does not abort, for a count of at most 9437184 from a pointer that is not null, and then the front of staging is the source |
| CudaClient.Hooks.CuMemcpyHtoD | interception/interception.cpp:205-211 | the same for a copy-in |
| CudaClient.Hooks.CuMemcpyDtoH | interception/interception.cpp:213-219 | the same for a copy-out, successful or not |
| CudaClient.Hooks.CuModuleLoad | interception/interception.cpp:222-231 | the same for a module load, with the prototypes parsed |
| CudaClient.Hooks.CuModuleGetFunction | interception/interception.cpp:234-241 | the same for a function lookup, with the handle indexed under its name; the name that the driver is asked for is `Transparency.LookupServed` |
| CudaClient.Hooks.WidenArguments | interception/interception.cpp:256-262 | the loop reads 8 bytes at each parameter, whatever its declared width: word i holds the bytes of the variable that pointer i leads to |
| CudaClient.Hooks.CuLaunchKernel | interception/interception.cpp:245-272 | the same for a launch, with the parameter count found by handle and name |
| CudaClient.Hooks.Remote | interception/interception.cpp:87-94 | send, serve and receive leave both sides between calls, with a reply that finishes as the remoted run does |
| CudaClient.Hooks.RunApplication | interception/interception.cpp:194-272 | after any number of calls, each chosen from what was seen and any of them failing, the two sides' objects hold the state of the remoted run, and of the direct run if every call was transparent |
| RemotedKernel.HandleHasWidths | vector_add.ptx:15-20 | behind a handle obtained for "vectorAdd" the driver reads the shipped widths 8, 8, 8 and 4 |
| RemotedKernel.KernelAskedMeans | vector_add.ptx:28-31 | in terms of guest memory alone: the kernel asked for has the pointers and the count that stand little-endian in the variables which the pointer array leads to |
| RemotedKernel.DirectCallAsksKernel | vector_add.ptx:28-31 | the parameters that the kernel loads are the application's variables at their declared widths |
| RemotedKernel.FloatBytes | tests/kernel_sample.cu:3-8 | element i of an array of floats is its four bytes from 4 i on |
| RemotedKernel.KernelSums | vector_add.ptx:28-52 | a device that runs the kernel on the callers' grid, in any fair interleaving, holds the sums afterwards and is otherwise unchanged |
| RemotedKernel.RemotedVectorAdd | interception/interception.cpp:245-272 | from `kernelParams` in guest memory to the host's device: if the remoted launch reports success, the device that `Serve` leaves holds the sums of what it held before, at the application's own pointers and count |
| RemotedKernel.SumsComeOut | tests/kernel_sample.cu:3-8 | across the four device states of copy-in, copy-in, launch and copy-out, what comes out is the sum of what went in |
| RemotedKernel.LookupFinds | interception/interception.cpp:234-241 | a lookup that succeeds leaves the handle in the application's variable, indexed under its name |
| RemotedKernel.JobDevices | tests/test_firecracker/firecracker_test.cpp:40-67 | over copy-in, copy-in, load, lookup, launch and copy-out the device goes through the states that the calls ask for, if all succeed |
| RemotedKernel.JobAdds | tests/test_firecracker/firecracker_test.cpp:40-67 | on any GPU whose successful calls do what they should, the six remoted calls of the test program add the application's arrays |
| RemotedKernel.RemotedSums | tests/test_firecracker/firecracker_test.cpp:40-67 | through every layer of the stack and any interleaving of guest, host and GPU threads: if the application sees its six calls succeed, its own memory holds C[i] = A[i] + B[i] |

## Left out

- Refinement.RemotingRefinesDirect: speaks of runs whose calls are well formed and unpinned, as listed under "What the code does not check", and of one guest.
- Refinement.StackIsRemoteRun: the uninitialised local that a failed module load answers holds one value throughout a run.
- Machine.FramePull: one read returns the whole command; a short or empty read, after which the source parses old bytes, is not a step of the machine. Nor is a reply that `send` takes in part.
- Machine.EveryCallReturns: a call through a name without a handler, and one that the host cannot decode, are answered with the previous reply, as in the source.
- CudaClient.Hooks.CuModuleLoad: the guest parses the file before it sends the request and not between sending and waiting; the two do not touch each other's state. The socket functions' answers are assumed positive here; `Transport` treats failures.
- CudaClient.Hooks.RunApplication: runs the host between a hook's sending and its waiting; `Machine` covers the other interleavings.
- CudaClient.Hooks.CuMemcpyHtoD: guest memory is one array of bytes, and the staging buffer's `sync` and `remap` are no-ops.
- RequestCodec.Deserializer.GetAll: asks that decoding stays in the buffer, and the cursor does not wrap at 2^64, which a message of the guest never makes it do.
- ReplyCodec.Lockstep: leaves out `const void**`, whose reader and writer are not compatible, and a handle by value that a reader expects to receive.
- VectorAdd.VectorAddCorrect: memory is by aligned 4-byte cell, addition of floats is an arbitrary function of bit patterns, and the grid has one dimension.
- PinnedMemory.TranslationRespectsBlocks: asks that the guest lays its blocks out as the host does, which the hook for `cuMemHostAlloc` cannot make it do.
- GpuInstance.GPUInstance.HandleMemAlloc: the vectors that keep host handles alive are reduced to the box in use.
- Protocol.DispatchFindsName: names are written as in the source; `cuda.h` renames some of them by macro on both sides alike and is not part of this model.
- A name that has no handler (`cuStreamIsCapturing`, `cuStreamGetPriority`) is served with the previous reply; `Protocol.Serve` has the branch, and no property of such a call's result is claimed.
- `cuGetExportTable` beyond its codec mismatch, the runtime hooks, and `cuModuleLoadData`, which decodes with another function's types.
- Several guests at once: staging and pinned files are shared with no lock.
- Asynchronous copies, and runs that contain pinned copies: one pinned copy is `Transparency.PinnedCopyInServed` or `Transparency.PinnedCopyOutServed`, and the exact condition for the copy-out is `Transparency.PinnedCopyOutTransparentIff`.
- Sockets, `mmap`, `msync`, file opening, threads and signals: byte streams, shared arrays and steps take their place.
- `ScalarArgs` and `VirtualGPU` of the shared-memory manager, the growing staging buffer, the occupancy and device queries, the generated hook tables and their generators, logging and error names.
