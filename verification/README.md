# Verified models of the concurrency, codec and robot-runtime demos

The repository teaches C++ concurrency, inter-process communication, binary formats and robot
runtimes through small programs.  This project models the programs that carry an algorithm or a
protocol and proves what they are there to show.

- `BoundedQueue.dfy`, `QueueProgram.dfy`: the bounded multi-producer multi-consumer queue with two
  condition variables and a shutdown flag, and the demo program that joins the producers, shuts the
  queue down and joins the consumers.
- `ThreadPool.dfy`, `PracticeQueue.dfy`: the two thread pools and the practice queue.  They share one
  protocol: one condition variable, `notify_one` after the unlock, one `notify_all` at the stop.
- `ShmRing.dfy`: the shared-memory ring with one binary and two counting semaphores between two
  processes, for every capacity and number of frames.
- `ProtoWire.dfy`, `OnnxReader.dfy`, `OnnxWriter.dfy`, `OnnxRoundTrip.dfy`: the Python script that writes
  ONNX models without a protobuf library, and what the bytes mean to the inspector.
- `OnnxContents.dfy`: what each written message holds, field number by field number, down to the weights.
- `OnnxParser.dfy`, `OnnxAgreement.dfy`, `OnnxTermination.dfy`: the C++ inspector in 64-bit arithmetic,
  when it reads what the bytes mean, and when it ends at all.
- `AudioAnalyzer.dfy`: windows cut from a stream of PCM buffers, and the search among the frames.
- `NcmDecoder.dfy`: RC4-style key schedule, keystream, padding strip and the search for the audio.
- `CanFrame.dfy`: the candump text codec and signed 16-bit values in a frame's payload.
- `Runtime.dfy`: the robot runtime's state machine, and the node that drives it from two threads.
- `StateMachine.dfy`: the generic state machine with packed keys, the robot arm built on it and the
  arm written as a chain of ifs.
- `Prelude.dfy`, `Arithmetic.dfy`: shared types and facts about division.

How concurrency is modelled: every section of code that runs under a lock is one atomic event, and
every notification made outside the lock is an event of its own.  For each condition variable the
state has the set of threads asleep in `wait` and the set of threads that have been woken and must
still take the lock.  Spurious wake-ups are events that may happen at any time, as the C++ standard
allows ([thread.condition.condvar] of ISO C++17).  A run is a sequence of enabled events, with any
number of threads in any interleaving.  The classes beside these systems hold the real fields of the
C++ objects; each of their methods is one locked section and is proved to perform exactly one event,
so the theorems about all runs are theorems about those methods.

How the parsers are modelled: what the bytes mean is a function, for each accumulating `parse*` loop
the fold of its loop body over the fields of a message, with lengths as mathematical numbers.  What
the C++ code does is a method in the form of the source that moves a 64-bit `pos` through the file.
The two differ where position plus a declared length wraps: the bound check passes, and the loop goes
on at an earlier position, perhaps for ever.  So each method is given a number of rounds for each loop
and may answer that it is still running; all results hold for every number of rounds.  `OnnxAgreement`
proves that the code reads what the bytes mean unless a length wraps, and `OnnxTermination` proves
exactly when it ends.

## Model

| member | source | states |
|---|---|---|
| BoundedQueue.StepKeepsInv | projects/blocking_queue/src/blocking_queue.hpp:17-66 | every locked section, notification and spurious wake-up keeps the whole invariant: thread places, no lost wake-up, linearised history |
| BoundedQueue.PathKeepsInv | projects/blocking_queue/src/blocking_queue.hpp:17-66 | the invariant holds along runs of any length |
| BoundedQueue.NoWakeupLost | projects/blocking_queue/src/blocking_queue.hpp:17-66 | in every reachable open state a sleeping consumer implies woken consumers >= queue length and a sleeping producer implies woken producers >= free slots; once closed a sleeper implies a shutdown caller that still owes the notify_all |
| BoundedQueue.SleepIsJustified | projects/blocking_queue/src/blocking_queue.hpp:17-45 | when all callers are asleep the queue is open, consumers sleep only on an empty queue, producers only on a full one, and never both unless the capacity is zero |
| BoundedQueue.PossibleLogIsFifo | projects/blocking_queue/src/blocking_queue.hpp:17-55 | every history the sequential queue allows is first in, first out and within the capacity |
| BoundedQueue.LinearisableFifo | projects/blocking_queue/src/blocking_queue.hpp:17-66 | in every run of any threads the completed calls, in the order of their locked sections, are a run of the sequential queue ending in the present contents, and pushed == popped + queued; so pop fails only when closed and empty |
| BoundedQueue.DrainedForever | projects/blocking_queue/src/blocking_queue.hpp:17-66 | closed and empty is permanent, and nothing is accepted or delivered from then on |
| BoundedQueue.BlockingQueue.PushSection | projects/blocking_queue/src/blocking_queue.hpp:17-24 | one round of push in memory is one push event: it blocks exactly on an open full queue, fails exactly on a closed one, else appends and wakes one consumer |
| BoundedQueue.BlockingQueue.TryPush | projects/blocking_queue/src/blocking_queue.hpp:27-33 | try_push is one event, never waits, and succeeds exactly when the item was appended |
| BoundedQueue.BlockingQueue.PopSection | projects/blocking_queue/src/blocking_queue.hpp:37-45 | one round of pop is one event: takes the front, fails only on a closed empty queue, blocks only on an open empty one |
| BoundedQueue.BlockingQueue.TryPop | projects/blocking_queue/src/blocking_queue.hpp:48-55 | try_pop is one event and yields the front or nothing |
| BoundedQueue.BlockingQueue.ShutdownClose | projects/blocking_queue/src/blocking_queue.hpp:59-63 | closing under the lock; both notify_all calls are still owed |
| BoundedQueue.BlockingQueue.ShutdownNotifyNotFull | projects/blocking_queue/src/blocking_queue.hpp:64 | wakes every sleeping producer; the other notify_all is still owed |
| BoundedQueue.BlockingQueue.ShutdownNotifyNotEmpty | projects/blocking_queue/src/blocking_queue.hpp:65 | wakes every sleeping consumer and ends the shutdown |
| QueueProgram.MoveKeeps | projects/blocking_queue/src/main.cpp:33-97 | every move of a producer, a consumer or main keeps the program's invariant, including the two counters and what each stage of main guarantees |
| QueueProgram.RunKeeps | projects/blocking_queue/src/main.cpp:33-97 | the same along runs of any length |
| QueueProgram.AllFramesConsumed | projects/blocking_queue/src/main.cpp:70-97 | when main is done every frame has been pushed and popped, in the same order, and both counters equal the number of frames |
| QueueProgram.EveryFrameDelivered | projects/blocking_queue/src/main.cpp:33-68 | nothing is lost, repeated or reordered: what producer t pushed is exactly its list of frames |
| QueueProgram.NeverStuck | projects/blocking_queue/src/main.cpp:33-97 | with positive capacity and a consumer, until main is done some thread can move without a spurious wake-up |
| QueueProgram.RunsAreBounded | projects/blocking_queue/src/main.cpp:33-97 | F frames and N threads make at most 6F + 7N + 5 moves plus two for each spurious wake-up |
| QueueProgram.AlwaysFinishes | projects/blocking_queue/src/main.cpp:70-97 | a run in which nobody can move has all threads joined, all frames pushed and popped |
| ThreadPool.StepKeepsInv | practice/today_2026_07_15_thread_pool.cpp:21-78 | every event keeps places, wake-ups, queue contents and the tickets of tasks |
| ThreadPool.PathKeepsInv | practice/today_2026_07_15_thread_pool.cpp:21-78 | before the stop a sleeping worker implies woken workers plus owed notifications >= queued tasks; after it, an owed notify_all; along every run |
| ThreadPool.IdleMeansDrained | practice/today_2026_07_15_thread_pool.cpp:38-78 | an open pool with workers rests only with an empty queue, all workers asleep and every accepted task finished |
| ThreadPool.ShutdownCompletes | practice/today_2026_07_15_thread_pool.cpp:21-33 | a stopped pool rests only when all workers have exited, so the joins cannot hang |
| ThreadPool.WorkIsBounded | practice/today_2026_07_15_thread_pool.cpp:21-78 | W workers and n submissions cause at most W + 4n internal events, plus W + 1 for each stop and one for each spurious wake-up; so at most 2W + 1 + 4n plus spurious wake-ups under a destructor |
| ThreadPool.EarlyTasksRanOnce | projects/tcp_chat_threadpool/src/thread_pool.hpp:18-56 | in both pools, after the joins each task accepted before the stop has run exactly once |
| ThreadPool.ExactlyOnce | practice/today_2026_07_15_thread_pool.cpp:38-78 | after the joins of the rejecting pool the queue is empty, each accepted task has run exactly once, nothing else has run, and accepted + rejected == attempted |
| ThreadPool.TakenInOrder | practice/today_2026_07_15_thread_pool.cpp:57-78 | in every run the k-th task taken from the queue is the k-th accepted |
| ThreadPool.LateTaskIsLost | projects/tcp_chat_threadpool/src/thread_pool.hpp:32-38 | a run of the pool without rejection in which an accepted task is never executed |
| ThreadPool.LostExactlyWhenLate | projects/tcp_chat_threadpool/src/thread_pool.hpp:18-56 | after the joins a task has run exactly once if and only if it was accepted before the last worker had left; the tasks accepted later are what is left in the queue |
| ThreadPool.Pool.Submit | practice/today_2026_07_15_thread_pool.cpp:38-46 | submit up to its unlock is one event; accepts exactly when it appends, else counts a rejection |
| ThreadPool.Pool.SubmitNotifyOne | practice/today_2026_07_15_thread_pool.cpp:47 | the owed notification wakes one sleeper if there is one |
| ThreadPool.Pool.WorkerSection | practice/today_2026_07_15_thread_pool.cpp:62-74 | one locked section of the worker loop: takes the front task, exits only when stopped and drained, else sleeps |
| ThreadPool.Pool.TaskReturned | practice/today_2026_07_15_thread_pool.cpp:76-77 | a finished task is recorded once and its worker returns to the loop |
| ThreadPool.Pool.DestructorStop | practice/today_2026_07_15_thread_pool.cpp:22-25 | sets the flag; the notify_all is still owed |
| ThreadPool.Pool.DestructorNotifyAll | practice/today_2026_07_15_thread_pool.cpp:26 | wakes every sleeping worker |
| PracticeQueue.DropQueue.Push | practice/today_2026_07_14_queue.cpp:13-24 | push up to its unlock is a submission of the rejecting pool: appended, or dropped and counted after the stop |
| PracticeQueue.DropQueue.PopSection | practice/today_2026_07_14_queue.cpp:26-39 | one round of pop is a worker's locked section: takes the front, fails only when stopped and empty, else waits |
| PracticeQueue.DropQueue.Shutdown | practice/today_2026_07_14_queue.cpp:41-45 | the stop of the pool protocol, however often it is called; each call owes a notify_all |
| PracticeQueue.ConsumedIsPrefix | practice/today_2026_07_14_queue.cpp:13-39 | at every point of every run a single consumer has received a prefix of the pushed values, in order |
| PracticeQueue.DemoPasses | practice/today_2026_07_14_queue.cpp:67-100 | with one consumer and the shutdown after the last push, after the joins every pushed value has been received in order, the queue is empty and nothing was dropped |
| ShmRing.StepKeepsInv | projects/shm_ipc/src/writer.cpp:38-50 | each step of either process keeps slot conservation, mutual exclusion, the indices and the contents |
| ShmRing.WriteKeepsContents | projects/shm_ipc/src/writer.cpp:42-44 | the writer never overwrites a frame that is still to be read |
| ShmRing.RingSafety | projects/shm_ipc/src/reader.cpp:28-41 | at every point of every run empty + full + slots held == capacity, at most one process is inside the mutex, and the k-th frame read has id k and distance 1.0 + 0.1 k |
| ShmRing.SomeoneCanStep | projects/shm_ipc/src/writer.cpp:31-50 | no deadlock: while frames are missing one of the processes has an enabled step |
| ShmRing.RingProgress | projects/shm_ipc/src/reader.cpp:28-41 | a run is stuck if and only if it has made exactly twelve steps per frame; then every frame k below the total was read, with id k and distance 1.0 + 0.1 k, head == tail and all slots are free |
| ShmRing.SharedRegion.WriterStep | projects/shm_ipc/src/writer.cpp:38-50 | each access of the writer to the mapped region is one step; in iteration i slot head gets the frame with id i and distance 1.0 + 0.1 i |
| ShmRing.SharedRegion.ReaderStep | projects/shm_ipc/src/reader.cpp:28-41 | each access of the reader is one step; the frame comes from slot tail and, where the ring's invariant holds, is the one of the reader's own iteration |
| ProtoWire.VarintRoundTrip | projects/onnx_runtime_cpp_demo/src/onnx_model_inspector.cpp:47-59 | every v < 2^64 is written in at most ten bytes and read back at any offset as v, advancing exactly that far |
| ProtoWire.DecodeVarintFits | projects/onnx_runtime_cpp_demo/src/onnx_model_inspector.cpp:47-59 | whatever is read fits 64 bits and took one to ten bytes of what was left |
| ProtoWire.VarintDigits | projects/onnx_runtime_cpp_demo/scripts/create_tiny_robot_score_onnx.py:18-24 | byte i of a written varint is digit i of the number in base 128, and only the last byte has its top bit clear |
| ProtoWire.FixedWidths | projects/onnx_runtime_cpp_demo/src/onnx_model_inspector.cpp:76-96 | wire types 1 and 5 take exactly eight and four bytes; 3, 4, 6 and 7 are refused |
| ProtoWire.StaysBelow | projects/onnx_runtime_cpp_demo/src/onnx_model_inspector.cpp:47-59 | the accumulated value lies below the next shift and the shifted byte is a multiple of it, so the bitwise or adds disjoint bits |
| ProtoWire.FieldRoundTrip | projects/onnx_runtime_cpp_demo/scripts/create_tiny_robot_score_onnx.py:27-40 | a written field is read back whatever follows it, and nothing after it is consumed |
| ProtoWire.FoldIsTokens | projects/onnx_runtime_cpp_demo/src/onnx_model_inspector.cpp:129-293 | what a message means to a parser depends only on its sequence of fields, lengths read as mathematical numbers; a message that is not a sequence of fields means nothing |
| ProtoWire.TokensRoundTrip | projects/onnx_runtime_cpp_demo/scripts/create_tiny_robot_score_onnx.py:27-40 | appended fields are read back as the same list |
| ProtoWire.TokenizeConcat | projects/onnx_runtime_cpp_demo/src/onnx_model_inspector.cpp:76-96 | the fields of a concatenation are the fields of its parts, for any bytes read with mathematical lengths |
| ProtoWire.ParseConsumesAll | projects/onnx_runtime_cpp_demo/src/onnx_model_inspector.cpp:129-293 | a message that is a sequence of fields is used up exactly, cut into one piece per field |
| ProtoWire.IgnoredFieldChangesNothing | projects/onnx_runtime_cpp_demo/src/onnx_model_inspector.cpp:76-96 | a well-formed field that a parser ignores can be inserted at any field boundary without changing what the message means, or that it means nothing |
| ProtoWire.BoundCheckAgrees | projects/onnx_runtime_cpp_demo/src/onnx_model_inspector.cpp:61-69 | the 64-bit bound check agrees with the mathematical one if and only if position plus length does not wrap |
| OnnxParser.ReadVarint | projects/onnx_runtime_cpp_demo/src/onnx_model_inspector.cpp:47-59 | the loop decodes exactly what the wire format has at the position, or throws exactly when there is no varint |
| OnnxParser.ReadBytes | projects/onnx_runtime_cpp_demo/src/onnx_model_inspector.cpp:61-69 | in 64-bit arithmetic: the nested slice and the next position, also where position plus length wraps and the slice ends before it begins; throws exactly when the wrapped sum is beyond the slice |
| OnnxParser.SkipField | projects/onnx_runtime_cpp_demo/src/onnx_model_inspector.cpp:76-96 | skips exactly the field of wire type 0, 1, 2 or 5, with the same wrap-around for type 2; throws for others and for truncated fields |
| OnnxParser.ParseDimension | projects/onnx_runtime_cpp_demo/src/onnx_model_inspector.cpp:115-127 | within any number of rounds: the first varint of field 1, -1 at the end of the slice, a throw, or still running |
| OnnxParser.ParseShape | projects/onnx_runtime_cpp_demo/src/onnx_model_inspector.cpp:129-143 | within any number of rounds of each loop, at 64-bit positions: exactly the run of its loop body over the fields met |
| OnnxParser.ParseTensorType | projects/onnx_runtime_cpp_demo/src/onnx_model_inspector.cpp:145-159 | within any number of rounds of each loop, at 64-bit positions: exactly the run of its loop body over the fields met |
| OnnxParser.ParseType | projects/onnx_runtime_cpp_demo/src/onnx_model_inspector.cpp:161-173 | within any number of rounds of each loop, at 64-bit positions: exactly the run of its loop body over the fields met |
| OnnxParser.ParseValueInfo | projects/onnx_runtime_cpp_demo/src/onnx_model_inspector.cpp:175-191 | within any number of rounds of each loop, at 64-bit positions: exactly the run of its loop body over the fields met |
| OnnxParser.ParseTensor | projects/onnx_runtime_cpp_demo/src/onnx_model_inspector.cpp:193-214 | within any number of rounds of each loop, at 64-bit positions: exactly the run of its loop body over the fields met |
| OnnxParser.ParseNode | projects/onnx_runtime_cpp_demo/src/onnx_model_inspector.cpp:216-236 | within any number of rounds of each loop, at 64-bit positions: exactly the run of its loop body over the fields met |
| OnnxParser.ParseOpset | projects/onnx_runtime_cpp_demo/src/onnx_model_inspector.cpp:238-250 | within any number of rounds: the first varint of field 2, 0 at the end of the slice, a throw, or still running |
| OnnxParser.ParseGraph | projects/onnx_runtime_cpp_demo/src/onnx_model_inspector.cpp:252-272 | within any number of rounds of each loop, at 64-bit positions: exactly the run of its loop body and of the nested parsers over the fields met |
| OnnxParser.ParseModel | projects/onnx_runtime_cpp_demo/src/onnx_model_inspector.cpp:274-293 | for every file and any number of rounds of each loop: exactly the run of the whole inspector, still running where it has not ended |
| OnnxAgreement.FieldAgrees | projects/onnx_runtime_cpp_demo/src/onnx_model_inspector.cpp:61-96 | a field met at a 64-bit position is the field the bytes have there unless its length wraps, and then the bytes have none |
| OnnxAgreement.GraphAgrees | projects/onnx_runtime_cpp_demo/src/onnx_model_inspector.cpp:252-272 | given a round for each byte of the file, parseGraph ends with what the slice means if it meets no length that wraps; if it meets one the slice means nothing |
| OnnxAgreement.ModelAgrees | projects/onnx_runtime_cpp_demo/src/onnx_model_inspector.cpp:274-293 | the same for parseModel and the whole file: without a wrapping length it ends, with exactly the model the bytes mean or a throw; with one the bytes mean nothing |
| OnnxAgreement.InspectorReadsWritten | projects/onnx_runtime_cpp_demo/src/onnx_model_inspector.cpp:274-293 | the whole-model round trip in the inspector's own arithmetic: every written model is read back in full, and no length wraps |
| OnnxAgreement.InspectorToleratesOrder | projects/onnx_runtime_cpp_demo/src/onnx_model_inspector.cpp:252-272 | order and unknown-field tolerance of parseGraph at 64-bit positions, where no length wraps |
| OnnxTermination.LengthDecidesDirection | projects/onnx_runtime_cpp_demo/src/onnx_model_inspector.cpp:61-69 | a length-delimited field leads to a later position if and only if its length does not wrap, or wraps to a position after the field's start |
| OnnxTermination.ScalarsLeadForward | projects/onnx_runtime_cpp_demo/src/onnx_model_inspector.cpp:76-96 | every other field leads to a later position |
| OnnxTermination.NeverEnds | projects/onnx_runtime_cpp_demo/src/onnx_model_inspector.cpp:274-293 | a file of eleven bytes on which parseModel runs for ever |
| OnnxTermination.LoopEndsInTime | projects/onnx_runtime_cpp_demo/src/onnx_model_inspector.cpp:129-143 | a loop that ends at all ends within as many rounds as its slice has positions |
| OnnxTermination.EndedRunsStay | projects/onnx_runtime_cpp_demo/src/onnx_model_inspector.cpp:274-293 | a run that has ended is the whole run: more rounds do not change it |
| OnnxTermination.EndsExactlyWhen | projects/onnx_runtime_cpp_demo/src/onnx_model_inspector.cpp:274-293 | parseModel ends on a file if and only if it ends when every loop is given one round for each byte of the file |
| OnnxTermination.EndsWithoutWrap | projects/onnx_runtime_cpp_demo/src/onnx_model_inspector.cpp:274-293 | on a file on which it meets no wrapping length parseModel ends |
| OnnxWriter.WriteVarint | projects/onnx_runtime_cpp_demo/scripts/create_tiny_robot_score_onnx.py:18-24 | the loop emits the base 128 digits, low digits first |
| OnnxWriter.FieldVarint | projects/onnx_runtime_cpp_demo/scripts/create_tiny_robot_score_onnx.py:27-32 | the bytes of one varint field |
| OnnxWriter.FieldBytes | projects/onnx_runtime_cpp_demo/scripts/create_tiny_robot_score_onnx.py:35-40 | the bytes of one length-delimited field |
| OnnxWriter.TensorShape | projects/onnx_runtime_cpp_demo/scripts/create_tiny_robot_score_onnx.py:43-47 | one nested dimension message for each dimension, in order |
| OnnxWriter.WriteTensorType | projects/onnx_runtime_cpp_demo/scripts/create_tiny_robot_score_onnx.py:50-54 | the message of exactly these fields in this order |
| OnnxWriter.WriteValueInfo | projects/onnx_runtime_cpp_demo/scripts/create_tiny_robot_score_onnx.py:57-61 | the message of exactly these fields in this order |
| OnnxWriter.WriteTensor | projects/onnx_runtime_cpp_demo/scripts/create_tiny_robot_score_onnx.py:64-72 | the message of exactly these fields in this order, the values packed in field 9 |
| OnnxWriter.WriteNode | projects/onnx_runtime_cpp_demo/scripts/create_tiny_robot_score_onnx.py:75-83 | the message of exactly these fields in this order |
| OnnxWriter.WriteModel | projects/onnx_runtime_cpp_demo/scripts/create_tiny_robot_score_onnx.py:90-105 | for any nodes, tensors, inputs and outputs, the message of exactly these fields in this order |
| OnnxContents.UnpackInvertsPack | projects/onnx_runtime_cpp_demo/scripts/create_tiny_robot_score_onnx.py:65 | reading the packed values four little-endian bytes at a time gives every value's 32 bits back |
| OnnxContents.TensorHolds | projects/onnx_runtime_cpp_demo/scripts/create_tiny_robot_score_onnx.py:64-72 | a written tensor has its dimensions in field 1, type in 2, name in 8 and in field 9, once, the four bytes of each value, lowest first |
| OnnxContents.NodeHolds | projects/onnx_runtime_cpp_demo/scripts/create_tiny_robot_score_onnx.py:75-83 | a written node has its inputs in field 1, outputs in 2, name in 3 and operator in 4 |
| OnnxContents.ValueInfoHolds | projects/onnx_runtime_cpp_demo/scripts/create_tiny_robot_score_onnx.py:43-61 | a written value info has its name in field 1 and, through three nested messages, its element type and one dimension message each |
| OnnxContents.GraphHolds | projects/onnx_runtime_cpp_demo/scripts/create_tiny_robot_score_onnx.py:90-98 | a written graph has its nodes in field 1, name in 2, tensors in 5, inputs in 11 and outputs in 12, in order |
| OnnxContents.ModelHolds | projects/onnx_runtime_cpp_demo/scripts/create_tiny_robot_score_onnx.py:100-105 | a written model has the IR version in field 1, the producer in 2, the graph in 7 and the operator set, its version in field 2, in 8 |
| OnnxContents.WeightsAreInFile | projects/onnx_runtime_cpp_demo/scripts/create_tiny_robot_score_onnx.py:64-105 | the weights of every tensor of a written model are found in the file at their place and unpack to exactly the given bits |
| OnnxRoundTrip.NodeByKind | projects/onnx_runtime_cpp_demo/src/onnx_model_inspector.cpp:216-236 | a node is determined by its fields of each kind: repeated ones in order, single ones last one wins |
| OnnxRoundTrip.TensorByKind | projects/onnx_runtime_cpp_demo/src/onnx_model_inspector.cpp:193-214 | the same for a tensor |
| OnnxRoundTrip.GraphByKind | projects/onnx_runtime_cpp_demo/src/onnx_model_inspector.cpp:252-272 | the same for a graph; it throws exactly when some nested message does |
| OnnxRoundTrip.GraphTolerance | projects/onnx_runtime_cpp_demo/src/onnx_model_inspector.cpp:252-272 | reordering between kinds and unknown fields leave what a graph means unchanged |
| OnnxRoundTrip.NodeTolerance | projects/onnx_runtime_cpp_demo/src/onnx_model_inspector.cpp:216-236 | the same for a node, which then always means something |
| OnnxRoundTrip.TensorTolerance | projects/onnx_runtime_cpp_demo/src/onnx_model_inspector.cpp:193-214 | the same for a tensor |
| OnnxRoundTrip.GraphIgnoresUnknown | projects/onnx_runtime_cpp_demo/src/onnx_model_inspector.cpp:76-96 | the bytes of any unhandled field of wire type 0, 1, 2 or 5, however encoded, can be inserted between two fields of any graph |
| OnnxRoundTrip.NodeIgnoresUnknown | projects/onnx_runtime_cpp_demo/src/onnx_model_inspector.cpp:216-236 | the same for nodes |
| OnnxRoundTrip.TensorIgnoresUnknown | projects/onnx_runtime_cpp_demo/src/onnx_model_inspector.cpp:193-214 | the same for tensors |
| OnnxRoundTrip.NodeRoundTrip | projects/onnx_runtime_cpp_demo/scripts/create_tiny_robot_score_onnx.py:75-83 | every written node is read back |
| OnnxRoundTrip.TensorRoundTrip | projects/onnx_runtime_cpp_demo/scripts/create_tiny_robot_score_onnx.py:64-72 | every written tensor is read back: name, type, dimensions, raw byte count |
| OnnxRoundTrip.ValueInfoRoundTrip | projects/onnx_runtime_cpp_demo/scripts/create_tiny_robot_score_onnx.py:57-61 | every written value info is read back through its four nested messages |
| OnnxRoundTrip.GraphRoundTrip | projects/onnx_runtime_cpp_demo/src/onnx_model_inspector.cpp:252-272 | every written graph is read back, appended to what the record already holds |
| OnnxRoundTrip.ModelRoundTrip | projects/onnx_runtime_cpp_demo/src/onnx_model_inspector.cpp:274-293 | for every model the helpers can write, the written bytes mean exactly its names, versions, nodes, tensors, inputs and outputs, in order |
| OnnxRoundTrip.CastsKeepInRange | projects/onnx_runtime_cpp_demo/src/onnx_model_inspector.cpp:145-214 | the casts of the stored numbers are exact if and only if the numbers are in the field's range |
| OnnxRoundTrip.CastsWrap | projects/onnx_runtime_cpp_demo/src/onnx_model_inspector.cpp:115-159 | outside that range the casts wrap: from 2^63 on a stored number is v - 2^64, so 2^64 - 1 is the dimension -1 |
| OnnxRoundTrip.DimensionMeans | projects/onnx_runtime_cpp_demo/src/onnx_model_inspector.cpp:115-127 | a dimension message without a varint in field 1 is -1, otherwise its first such varint |
| OnnxRoundTrip.OpsetMeans | projects/onnx_runtime_cpp_demo/src/onnx_model_inspector.cpp:238-250 | an operator set without a varint in field 2 is 0, otherwise its first such varint |
| AudioAnalyzer.Analyzer.ProcessBuffer | projects/music_visualizer/src/AudioAnalyzer.cpp:70-79 | whatever the buffer's size, the object still holds exactly the windows of everything received, as many as fit, each frame with the time, spectrum and waveform of its place in the stream |
| AudioAnalyzer.Analyzer.AnalyzeFile | projects/music_visualizer/src/AudioAnalyzer.cpp:39-41 | a new file starts from nothing |
| AudioAnalyzer.Analyzer.DownSample | projects/music_visualizer/src/AudioAnalyzer.cpp:109-117 | each of 128 waveform points is the mean of its own sixteen samples, cut to the range from -1 to 1 |
| AudioAnalyzer.Analyzer.SeekTo | projects/music_visualizer/src/AudioAnalyzer.cpp:127-137 | the binary search terminates at the frame a linear scan finds: the first at or after the position, else the last |
| AudioAnalyzer.ScanIs | projects/music_visualizer/src/AudioAnalyzer.cpp:127-137 | the scan's result is the only index with every earlier frame before the position that is itself at or after it, or last |
| AudioAnalyzer.DrainSeen | projects/music_visualizer/src/AudioAnalyzer.cpp:70-79 | the loop keeps the samples seen so far in step with the frames built, and leaves less than a window |
| AudioAnalyzer.StreamingEqualsBatch | projects/music_visualizer/src/AudioAnalyzer.cpp:70-79 | however the stream is split, frame k sees samples 512k to 512k + 2047, the number of frames is 0 or (total - 2048) / 512 + 1, the leftover is shorter than 2048, and the timestamps strictly increase |
| AudioAnalyzer.FramesAreDescribed | projects/music_visualizer/src/AudioAnalyzer.cpp:70-118 | for every split and every k frame k has time 512000 k / 44100 rounded down, the spectrum of samples 512k to 512k + 2047, and as waveform point i the cut mean of the sixteen samples from 512k + 16i on |
| AudioAnalyzer.SplitDoesNotMatter | projects/music_visualizer/src/AudioAnalyzer.cpp:70-79 | two splits of one stream end in the same state |
| AudioAnalyzer.SeenTimes | projects/music_visualizer/src/AudioAnalyzer.cpp:118 | the frames' timestamps strictly increase in spite of rounding down |
| NcmDecoder.BoxIsPermutation | projects/music_visualizer/src/NcmDecoder.cpp:42-51 | for every nonempty key the schedule is a permutation of 0 to 255 |
| NcmDecoder.Ksa | projects/music_visualizer/src/NcmDecoder.cpp:42-51 | the in-place swaps go through RC4's 256 scheduling rounds, given as boxes and indices, and end in a permutation |
| NcmDecoder.ScheduleIsBox | projects/music_visualizer/src/NcmDecoder.cpp:42-51 | the rounds determine the schedule: every sequence of boxes and indices that follows them for a key ends in the same box |
| NcmDecoder.BuildKeyBox | projects/music_visualizer/src/NcmDecoder.cpp:53-61 | the keystream: byte i is the box entry at the sum of the entries at i + 1 and at that entry plus i + 1, all modulo 256 |
| NcmDecoder.KeystreamOfIdentity | projects/music_visualizer/src/NcmDecoder.cpp:53-61 | on the unmixed box byte i of the keystream is 3 (i + 1) modulo 256 |
| NcmDecoder.XorInverts | projects/music_visualizer/src/NcmDecoder.cpp:75-84 | applying the keystream twice gives the data back |
| NcmDecoder.DecryptAudioPayload | projects/music_visualizer/src/NcmDecoder.cpp:75-84 | each byte after the skip is combined by exclusive or with the keystream byte at its index modulo 256; nothing when the payload is not longer |
| NcmDecoder.FindAudio | projects/music_visualizer/src/NcmDecoder.cpp:128-137 | the candidate of the least skip up to 16 that looks like audio, and none if and only if there is no such skip |
| NcmDecoder.AudioHeaders | projects/music_visualizer/src/NcmDecoder.cpp:63-73 | exactly the data of at least four bytes that begin with "ID3", "fLaC" or eleven set bits look like audio |
| NcmDecoder.PayloadRecovery | projects/music_visualizer/src/NcmDecoder.cpp:128-137 | audio with a known header, encrypted after at most sixteen bytes, is recovered if and only if no smaller skip looks like audio |
| NcmDecoder.StripPadding | projects/music_visualizer/src/NcmDecoder.cpp:28-37 | the checking loop removes the padding only when all its bytes agree |
| NcmDecoder.StripInvertsPad | projects/music_visualizer/src/NcmDecoder.cpp:28-37 | the strip undoes PKCS#7 padding of every text |
| NcmDecoder.StripRemoves | projects/music_visualizer/src/NcmDecoder.cpp:28-37 | it removes something if and only if the text ends in p bytes of value p, 1 <= p <= 16 |
| NcmDecoder.DecodeFile | projects/music_visualizer/src/NcmDecoder.cpp:98-137 | strip, key box and search in sequence; gives up when the key block is too short |
| NcmDecoder.DecoderRecovers | projects/music_visualizer/src/NcmDecoder.cpp:98-137 | for every nonempty key the whole decoder returns the audio if and only if no smaller skip looks like audio |
| CanFrame.ParseCandumpLine | projects/socketcan_vcan_demo/src/can_frame.hpp:41-59 | the parsing loop accepts, rejects or meets non-hexadecimal text exactly as the codec says |
| CanFrame.FormatCandumpLine | projects/socketcan_vcan_demo/src/can_frame.hpp:73-80 | the formatting loop writes the codec's text |
| CanFrame.HexRoundTrip | projects/socketcan_vcan_demo/src/can_frame.hpp:73-80 | the digits written for a number have its value and at least the asked width |
| CanFrame.DigitMeans | projects/socketcan_vcan_demo/src/can_frame.hpp:17-39 | each digit means its place in the list of digits, in upper and lower case |
| CanFrame.CaseDoesNotMatter | projects/socketcan_vcan_demo/src/can_frame.hpp:17-39 | text has the value of its upper-case form |
| CanFrame.NeedsIdAndHash | projects/socketcan_vcan_demo/src/can_frame.hpp:41-48 | a line without a hash, and a line with nothing before it, are rejected |
| CanFrame.IdBounds | projects/socketcan_vcan_demo/src/can_frame.hpp:17-25 | a hexadecimal id is accepted exactly up to 0x7FF |
| CanFrame.PayloadBounds | projects/socketcan_vcan_demo/src/can_frame.hpp:50-53 | half bytes and more than eight bytes are rejected |
| CanFrame.ParseOfFormat | projects/socketcan_vcan_demo/src/can_frame.hpp:41-80 | parse(format(f)) is f for id <= 0x7FF and at most eight bytes, and a rejection for every other frame |
| CanFrame.FormatOfParse | projects/socketcan_vcan_demo/src/can_frame.hpp:41-80 | format(parse(s)) == s for every canonical uppercase line |
| CanFrame.CanonicalIsFormatted | projects/socketcan_vcan_demo/src/can_frame.hpp:41-80 | the canonical lines are exactly the formatted classic frames |
| CanFrame.WriteInt16Le | projects/socketcan_vcan_demo/src/can_frame.hpp:91-98 | throws exactly when the two bytes do not fit, and then changes nothing |
| CanFrame.Int16RoundTrip | projects/socketcan_vcan_demo/src/can_frame.hpp:82-98 | a written value is read back and every other byte is unchanged |
| CanFrame.Int16Bytes | projects/socketcan_vcan_demo/src/can_frame.hpp:82-98 | the low byte comes first: the two bytes are the value modulo 2^16, and are read back with the sign of the high byte |
| CanFrame.Int16WriteBack | projects/socketcan_vcan_demo/src/can_frame.hpp:82-98 | writing back what was read changes nothing |
| CanFrame.DisjointWritesCommute | projects/socketcan_vcan_demo/src/can_frame.hpp:91-98 | writes to disjoint byte pairs commute and leave each other readable |
| Runtime.RuntimeStateMachine.Process | projects/ros2_runtime_demo/src/robot_runtime_demo/src/runtime_state_machine.hpp:62-139 | the nested switches follow two rules: trouble outside Fault leads to Fault with its error, a move along the normal cycle clears the error; the result says whether the state moved |
| Runtime.RuntimeStateMachine.Reset | projects/ros2_runtime_demo/src/robot_runtime_demo/src/runtime_state_machine.hpp:57-60 | the given state without an error |
| Runtime.EventMoves | projects/ros2_runtime_demo/src/robot_runtime_demo/src/runtime_state_machine.hpp:62-139 | every event makes one of six listed moves and clears the error, or leads from a state other than Fault to Fault, or changes nothing |
| Runtime.FaultRecords | projects/ros2_runtime_demo/src/robot_runtime_demo/src/runtime_state_machine.hpp:62-139 | the error a fault records: the event's own, but a timeout during Recovery is a failed recovery |
| Runtime.HeartbeatDecides | projects/ros2_runtime_demo/src/robot_runtime_demo/src/runtime_node.cpp:218-240 | in the node's fields: Idle until both sensors were heard, then Fault with the right error for stale or invalid sensors, and Idle to Standby for good ones |
| Runtime.RequestIsChecked | projects/ros2_runtime_demo/src/robot_runtime_demo/src/runtime_node.cpp:323-336 | a request goes on exactly when its target is positive, and claims nothing yet |
| Runtime.GoalTakesSlot | projects/ros2_runtime_demo/src/robot_runtime_demo/src/runtime_node.cpp:337-356 | a goal gets the slot exactly when the node is in Standby at its check and no task is active after it |
| Runtime.GoalStarts | projects/ros2_runtime_demo/src/robot_runtime_demo/src/runtime_node.cpp:357-385 | a claimed goal resets the step counter, starts the machine from Standby and then its thread at step 1 |
| Runtime.TaskRound | projects/ros2_runtime_demo/src/robot_runtime_demo/src/runtime_node.cpp:393-446 | one round of the task loop: success after the last step, cancel before abort, otherwise one more feedback step |
| Runtime.FinishedGoalPosts | projects/ros2_runtime_demo/src/robot_runtime_demo/src/runtime_node.cpp:387-458 | from Running a succeeded or cancelled goal leads to Standby without an error and an aborted one to Fault with the task's error, each with its own event |
| Runtime.ReportDecidesState | projects/ros2_runtime_demo/src/robot_runtime_demo/src/runtime_node.cpp:387-458 | in every run the event posted is that of the verdict the client was told |
| Runtime.FaultAlwaysHasAnError | projects/ros2_runtime_demo/src/robot_runtime_demo/src/runtime_node.cpp:218-271 | in every reachable state of the node Fault holds if and only if an error is recorded |
| Runtime.RecoveryIsExplicit | projects/ros2_runtime_demo/src/robot_runtime_demo/src/runtime_node.cpp:218-271 | once both sensors were heard, every run from Fault to Running has fired ResetFault, RecoveryDone and StartTask in that order, whatever interleaves |
| Runtime.OneGoalAtATime | projects/ros2_runtime_demo/src/robot_runtime_demo/src/runtime_node.cpp:323-458 | under every interleaving the goals between their compare-exchange and their release are one if task_active_ and none otherwise |
| Runtime.FeedbackIsExact | projects/ros2_runtime_demo/src/robot_runtime_demo/src/runtime_node.cpp:387-458 | every finished goal was told 1, 2, .. k in order, k being the target exactly on success and the reported step otherwise |
| Runtime.RunningByService | projects/ros2_runtime_demo/src/robot_runtime_demo/src/runtime_node.cpp:273-321 | Running does not imply an active task, first: a run in which apply_event posts StartTask by itself |
| Runtime.RunningWhilePosting | projects/ros2_runtime_demo/src/robot_runtime_demo/src/runtime_node.cpp:393-410 | second: a run without apply_event in which a goal has released the slot and not yet posted its event |
| Runtime.RunningHasTaskUnlessPosting | projects/ros2_runtime_demo/src/robot_runtime_demo/src/runtime_node.cpp:393-458 | in every reachable Running state that goal g started, a task is active, and it is g, if and only if g is not between releasing the slot and its last event |
| Runtime.RunningHasTaskWithoutInjection | projects/ros2_runtime_demo/src/robot_runtime_demo/src/runtime_node.cpp:273-458 | in every run in which apply_event does not inject StartTask, a Running node has an active task if and only if the goal that started it is not between its release and its event |
| Runtime.RuntimeNode.OnImu | projects/ros2_runtime_demo/src/robot_runtime_demo/src/runtime_node.cpp:59-71 | counts the message and touches nothing else |
| Runtime.RuntimeNode.OnJointState | projects/ros2_runtime_demo/src/robot_runtime_demo/src/runtime_node.cpp:76-103 | counts the message and records whether names, positions and velocities match in number and are not empty |
| Runtime.RuntimeNode.UpdateRuntimeState | projects/ros2_runtime_demo/src/robot_runtime_demo/src/runtime_node.cpp:218-240 | resets to Idle until both sensors were heard, then posts one of the three sensor events |
| Runtime.RuntimeNode.ProcessRuntimeEvent | projects/ros2_runtime_demo/src/robot_runtime_demo/src/runtime_node.cpp:242-271 | moves the machine, records the event exactly when the state moved |
| Runtime.RuntimeNode.HandleGoal | projects/ros2_runtime_demo/src/robot_runtime_demo/src/runtime_node.cpp:323-336 | updates the state, then rejects exactly the non-positive targets before anything shared is claimed |
| Runtime.RuntimeNode.ExecutorStep | projects/ros2_runtime_demo/src/robot_runtime_demo/src/runtime_node.cpp:337-385 | each access to shared data of goal handling is one step of the executor |
| Runtime.RuntimeNode.TaskThreadStep | projects/ros2_runtime_demo/src/robot_runtime_demo/src/runtime_node.cpp:387-458 | each round of executeTask, the release of the slot and the final event are one step each of the task thread; the final event leaves a Running machine in Fault after an abort and in Standby otherwise |
| StateMachine.KeyIsInjective | projects/state_machine/src/state_machine.hpp:47-50 | events below 2^16 and states below 2^48 share no key with another such pair |
| StateMachine.KeysCollide | projects/state_machine/src/state_machine.hpp:47-50 | pairs just beyond either bound that do share a key |
| StateMachine.CollidesExactlyOutsideBounds | projects/state_machine/src/state_machine.hpp:47-50 | a pair shares its key with another pair inside the bounds if and only if it is itself outside them |
| StateMachine.AddKeepsTable | projects/state_machine/src/state_machine.hpp:20-22 | after any sequence of registrations the packed table holds the last rule of every pair and nothing for the others |
| StateMachine.Machine.Add | projects/state_machine/src/state_machine.hpp:20-22 | registers one more rule and disturbs no other pair |
| StateMachine.Machine.Process | projects/state_machine/src/state_machine.hpp:26-38 | fires exactly when a rule was registered; last registration wins; exit, transition and enter actions in that order; otherwise nothing changes |
| StateMachine.TableIsChain | projects/observer/src/robot_arm.hpp:78-90 | the table has a rule exactly where the if-chain has a branch, to the same state |
| StateMachine.ArmsAgree | projects/observer/src/robot_arm.hpp:64-90 | on every trace of events both arms accept the same events and reach the same state |
| StateMachine.TableArm.constructor | projects/state_machine/src/robot_arm.hpp:37-61 | the machine starts in IDLE with exactly the arm's rules and hooks, and silent |
| StateMachine.TableArm.Send | projects/state_machine/src/robot_arm.hpp:64-72 | fires, moves and speaks as the if-chain says, with the emergency stop between farewell and greeting |
| StateMachine.ChainArm.Send | projects/observer/src/robot_arm.hpp:64-71 | observers are told of exactly the accepted changes, with the state before and after |

## Left out

- OnnxParser.ReadVarint: the bitwise or is written as an addition, justified by `ProtoWire.StaysBelow`; exceptions keep no message.
- OnnxParser.ParseModel: a string built from a slice that ends before it begins is undefined in C++; the run stops there with the result `Undefined`. Files have at most 2^63 - 1 bytes, as vectors have.
- CanFrame.ParseCandumpLine: text with characters that are not hexadecimal digits, which the C++ stream may partly accept, has the outcome `Lenient`, and `formatBytes` is not modelled.
- CanFrame.WriteInt16Le: the sum of offset and one is a mathematical number; offset 2^64 - 1, which wraps past the check of the source on any nonempty vector, throws here. The same holds for the reading of such a value.
- BoundedQueue.BlockingQueue.PushSection: a blocking call is a sequence of locked sections and not one method; the mutex itself is not modelled.
- Runtime.RuntimeNode.HandleGoal: sensor freshness, cancel requests and middleware shutdown are free choices, and the step counter is an unbounded integer.
- Runtime.RuntimeNode.ExecutorStep: the deferred and immediate acceptance of a goal by the action server is one step.
- QueueProgram: the two atomic counters are bumped together with the queue operation they follow; they are read only after the joins.
- ShmRing: shm_open, mmap, sem_unlink and the start-up order of the two processes; distances are reals.
- ThreadPool: tasks that throw, and submissions that race with the end of the object's lifetime.
- OnnxWriter: UTF-8 encoding gives bytes and rounding to a float gives 32 bits; writing and reading the file, requireModel and printModel.
- AudioAnalyzer: Hann window, FFT, log bins and smoothing are one function parameter; samples are reals; the audio decoder and the user interface are not modelled.
- NcmDecoder: AES, file access and the temporary file; the model starts from the decrypted key block and the payload.
- StateMachine: actions that call back into the machine; console output of ignored events and labels.
- Accessors such as size, empty and rejectedCount: they would only add easy members.
- Sockets, chat and epoll servers, ROS publishers, logging and quality-of-service settings, QML, lyrics, URDF checks and inference scoring: I/O, floating point or no deep state.
