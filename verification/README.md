# Verification of Racer

Racer watches a Ruby program, turns every finished call into a trace, ships the traces from
a C++ extension to an agent process and folds them there into RBS signatures. This project
models that way from the VM's events to the signatures in Dafny and proves what it promises:
nothing that was observed is lost, repeated or reordered on the way, and nothing that was
observed is rejected by the signatures at its end. `dafny verify dfyconfig.toml` checks the
whole project.

The Ruby VM, the RBS library and the operating system appear as inputs: sequences of events,
object heaps, ancestor lists and namespaces, the arity and the declared mixins of known
classes, the interleaving of threads and the sizes of reads. All statements hold for every
choice of them.

## The parts

* `Traces` holds the records that travel. `Codec` describes the token format as functions and
  proves the round trip; `Wire` has the writers of `worker.cc` and the readers of `agent.rb`
  as they run, on one mutable array, each proved against those functions; `Sizes` compares the
  sizes the worker predicts with what it writes; `JsonText` covers the compact JSON text in
  between.
* `Framing` is the receiving loop that cuts reads into messages with a carried remainder,
  against a split of the whole stream.
* `TinyQueue` is the linked list under the mutex (on the heap), the mutex and condition
  variable protocol around it (as steps of threads), and the two together.
* `Pipeline` puts queue, worker, socket, receiver, agent queue and collector together, one
  step of one thread at a time, with the shutdown protocol.
* `CallStacks` and `BlockCalls` are the event handlers with their stacks, against what the run
  of a well-nested program says; `Emissions` states exactly when what is emitted is what the
  program did. `Ownership` follows every allocation they make, in blocks nested to any depth, to
  the recursive free.
* `Exploration` is the memoised search over namespaces, ancestors and singleton ancestors,
  `Ledgers` the publication of what it finds, `AncestorWindows` how exact its lists are and
  `Pruning` when exactly they lose an include. `Publishing` shows that the streams of traces
  this leads to are ones the collector can file.
* `Values` summarises nested values; `RbsTypes` turns lists of summaries into types, in place;
  `TypeSoundness` gives types a meaning and proves that they accept what they were made from;
  `Admission` tells from the summaries exactly which values a type accepts.
* `Equality` and `Collector` deduplicate the stream, and `MethodNames` compares the method names
  they accept with the regular expression; `Parameters` and `Overloads` build the
  signatures of one method; `OverloadSoundness`, `OverloadExactness` and `Signatures` prove that
  they accept every observed call with safe values, and exactly which calls they accept.
* `EndToEnd` joins the parts, from the completed calls of a program to their signatures.

Orders are stated with `Selection`: the elements of a list at the indices that are to be kept.

Code that changes things in place (handlers, loops, writers, readers, the conversion that
deletes from the array it iterates) is written as classes and methods with loops and proved
equal to functions; the results are lemmas about those functions. A type is read strictly: a
class type stands for the instances of exactly that class.

## Where the code departs from what one would expect

Each of these follows the code; the lemma named gives a concrete case or the exact condition.

* `rescued` is never reset, so a method that has rescued something and then calls itself is
  taken for a retry (`CallStacks.StacksAreFaithful`, `CallStacks.ConfusedCallIsMisread`). What is
  emitted is wrong exactly if such a call also returns in its window
  (`Emissions.EmissionsAreExact`), and an invocation can then be emitted twice
  (`Emissions.EmittedOnceIff`, `Emissions.RetriedAfterMisreading`).
* A `retry` of a call that began before tracing started is emitted as a call of its own
  (`Emissions.BegunAndEndedIff`, `CallStacks.OuterRetryIsEmitted`).
* The name of a block parameter `&` is copied and never freed, and neither is the message that
  ends the worker (`Ownership.NothingLeaks`, `Ownership.AnonymousNameIsLost`).
* Extended modules count as visited, so a module can be left out of the includes although it
  is only reachable through an extend edge (`AncestorWindows.ExtensionHidesInclude`,
  `AncestorWindows.IncludesAreKept`, `Pruning.IncludeIsKeptIff`, `Pruning.EveryWindowIsKeptIff`).
* An empty message before the stop would be dropped or raise depending on how the stream is cut
  (`Framing.ChunkingIsInvisible`, `Framing.EmptyMessagesAreChunkDependent`); the texts that are
  sent are never empty (`JsonText.TextIsAFrame`).
* Parameters and the types of a block trace count for less than they take when the size of a
  message is predicted, and the message itself for one token less, so the prediction is always
  too small; it is only the first size of an array that grows (`Sizes.SizeOfTrace`).
* Deleting from the array that is iterated skips elements, so a bare instance can stay beside a
  generic one (`RbsTypes.NoneBesideIff`, `RbsTypes.SweepCanSkip`).
* Booleans, nil and dropped bare instances are recognised by name only, which rejects some class
  objects and some containers of them (`TypeSoundness.CleanIsExact`, `Admission.RobustIff`).
* A required parameter behind an optional one without a rest parameter between them loses its
  place (`Parameters.RecordKeepsPositionals`).
* Rest and keyword rest parameters of a block are typed from the first recorded call alone
  (`OverloadSoundness.BlockRestAccepted`, `OverloadSoundness.LaterRestIsRejected`).
* An unnamed parameter is typed as an array whatever it is given
  (`OverloadSoundness.UnnamedAccepted`).

## Model

| member | source | states |
|---|---|---|
| Codec.InstanceRoundTrip | ext/racer/worker.cc:33-43 | Decoding a written constant instance, generics nested to any depth, returns it and exactly the tokens behind it |
| Codec.ConstantRoundTrip | lib/racer/agent.rb:203-228 | Decoding a written constant returns it, including its optional superclass and its three counted name lists |
| Codec.ParamsRoundTrip | lib/racer/agent.rb:164-194 | Decoding written parameters returns every parameter with its kind from the enum table, and the block parameter or none |
| Codec.BlockTraceRoundTrip | lib/racer/agent.rb:156-162 | Decoding a written block trace returns it, blocks nested in blocks included |
| Codec.CalleeRoundTrip | lib/racer/agent.rb:122-128 | A null callee and a present one are told apart by the first token alone and both are read back |
| Codec.TraceHeaderRoundTrip | lib/racer/agent.rb:107-118 | The numbers of the C++ method kinds and visibilities index the same entries in the Ruby tables |
| Codec.TraceRoundTrip | ext/racer/worker.cc:154-172 | For every trace, decoding its tokens followed by any others returns the trace and exactly the others |
| Codec.EncodingIsPrefixFree | ext/racer/worker.cc:154-172 | Two token streams that begin with encoded traces agree only if the traces and the remainders agree |
| Codec.ConstantLayout | ext/racer/worker.cc:6-31 | Where each part of a constant stands among its tokens, and which number a module and a class have |
| Codec.InstanceLayout | ext/racer/worker.cc:33-43 | An instance begins with its name, whether it is a class object and the number of its arguments, each of which begins with the number of its members |
| Codec.ParamLayout | ext/racer/worker.cc:93-106 | A parameter is its name or null, the number of its kind as the list of kinds counts them, and its type |
| Codec.ParamsLayout | ext/racer/worker.cc:87-122 | Parameters are counted and followed by false, or by true, the block name or null and its counted calls, each with receiver, return type and parameters |
| Codec.TraceLayout | ext/racer/worker.cc:154-172 | The order of the parts of a message and the numbers of its method kind and visibility |
| Wire.TokenArray.Shift | lib/racer/agent.rb:107 | Shifting an empty array yields nil and changes nothing; otherwise it removes and returns the first token |
| Wire.WriteConstant | ext/racer/worker.cc:6-31 | Appends exactly the encoding of a constant to the shared array |
| Wire.WriteConstantInstance | ext/racer/worker.cc:33-43 | Appends exactly the encoding of an instance, by two nested loops that recurse into generics |
| Wire.WriteBlockTrace | ext/racer/worker.cc:87-91 | Appends exactly the encoding of a block trace |
| Wire.WriteParams | ext/racer/worker.cc:93-122 | Appends exactly the encoding of the parameters and the optional block, recursing into block traces |
| Wire.WriteConstantUpdates | ext/racer/worker.cc:167-170 | Appends the number of constant updates and each of them |
| Wire.WriteTrace | ext/racer/worker.cc:154-172 | Builds exactly the token array of a trace |
| Wire.ShiftConstant | lib/racer/agent.rb:203-228 | Consumes what the decoding function consumes and returns what it returns, or raises where it is malformed |
| Wire.ShiftConstantUpdates | lib/racer/agent.rb:196-201 | The counted loop over constants agrees with the decoding function |
| Wire.ShiftConstantInstance | lib/racer/agent.rb:230-249 | The nested counted loops agree with the decoding function |
| Wire.ShiftParam | lib/racer/agent.rb:184-194 | Agrees with the decoding function; an unknown kind falls back to the first of the table |
| Wire.ShiftParams | lib/racer/agent.rb:164-182 | Agrees with the decoding function on parameters and block |
| Wire.ShiftBlockTrace | lib/racer/agent.rb:156-162 | Agrees with the decoding function on block traces |
| Sizes.SizeOfConstant | ext/racer/worker.cc:45-47 | Predicts exactly the number of tokens written for a constant |
| Sizes.SizeOfConstantUpdates | ext/racer/worker.cc:49-55 | Predicts exactly the number of tokens written for the constant updates |
| Sizes.SizeOfConstantInstance | ext/racer/worker.cc:57-65 | Predicts exactly the number of tokens written for an instance, generics nested to any depth |
| Sizes.ParamsFallShort | ext/racer/worker.cc:69-83 | For parameters with any nesting of block traces the prediction is never above what is written, and exact if and only if there is neither a parameter nor a block trace |
| Sizes.SizeOfTrace | ext/racer/worker.cc:145-150 | For every trace the predicted size is below the number of tokens written, by exactly one if and only if there is neither a parameter nor a block trace |
| Wire.ReadTrace | lib/racer/agent.rb:107-137 | Agrees with the decoding function on whole traces and warns exactly when tokens are left over |
| Wire.SendAndReceive | lib/racer/agent.rb:107-151 | What the writer's program produces the reader's program reads back as the same trace, without the left-over warning |
| JsonText.TextRoundTrip | ext/racer/worker.cc:174 | Parsing the compact JSON text of a token array returns the token array |
| JsonText.TextIsAFrame | ext/racer/worker.cc:174-176 | The text of a token array is non-empty, free of NUL and never the word stop |
| JsonText.TextLooksLikeJson | ext/racer/worker.cc:174 | The text is the texts of the tokens between brackets and with commas, for words, numbers and escaped strings as JSON writes them |
| Framing.Connection.TakeMessages | lib/racer/agent.rb:78-95 | One read is cut into messages and a new carry as the functional description says, updating the carry in place |
| Framing.Connection.HandleMessages | lib/racer/agent.rb:97-104 | Messages are handed on in order up to the first stop; a nil message raises |
| Framing.Connection.Receive | lib/racer/agent.rb:65-154 | One round of the loop |
| Framing.RoundAgreesWithSplit | lib/racer/agent.rb:78-95 | A round frames the carried and the read bytes exactly as a split of the whole stream at NUL does, if and only if the read does not end in an empty message |
| Framing.ChunkingIsInvisible | lib/racer/agent.rb:65-154 | For every stream, the loop ends where the split of the whole stream says for all cuts into non-empty reads, if and only if no empty message comes before the first stop |
| Framing.FailingCut | lib/racer/agent.rb:78-104 | For every stream with an empty message before the first stop: reading what stands before it and then its NUL alone makes the thread raise |
| Framing.FramedMessagesAreHandled | lib/racer/agent.rb:65-154 | Of NUL-terminated messages exactly those before the first stop are handled, in order, and the thread returns exactly if there is a stop |
| Framing.EmptyMessagesAreChunkDependent | lib/racer/agent.rb:78-104 | A stream with an empty message on which two cuts lead to different outcomes |
| Framing.SplitOfFrames | ext/racer/worker.cc:176 | Splitting NUL-terminated NUL-free messages returns them, with nothing begun |
| TinyQueue.List.Link | ext/racer/tiny_queue.cc:36-48 | The critical section of push appends one element to the linked list |
| TinyQueue.List.Unlink | ext/racer/tiny_queue.cc:64-73 | The critical section of pop removes and returns the first element of the linked list |
| TinyQueue.SharedQueue.LinkFor | ext/racer/tiny_queue.cc:36-48 | When the protocol lets a producer link, the linked list on the heap changes as that step changes the contents |
| TinyQueue.SharedQueue.TakeHead | ext/racer/tiny_queue.cc:64-73 | When the protocol lets the consumer take, the linked list on the heap changes as that step does and the element returned is the one the step takes |
| TinyQueue.StepKeepsSafe | ext/racer/tiny_queue.cc:27-78 | Every step of a producer or the consumer keeps: pushed is popped followed by contents, the mutex is exclusive, and no wakeup is lost |
| TinyQueue.RunsAreSafe | ext/racer/tiny_queue.cc:27-78 | The same over every run, with any number of producers and spurious wakeups |
| TinyQueue.QueueIsFirstInFirstOut | ext/racer/tiny_queue.cc:27-78 | From the empty queue, popped is always a prefix of pushed, and a sleeping consumer beside a non-empty queue always has a signal still to come |
| TinyQueue.PopCanMove | ext/racer/tiny_queue.cc:56-78 | While a pop has or can get an element, some thread can take a step that starts nothing new |
| TinyQueue.PopGetsCloser | ext/racer/tiny_queue.cc:56-78 | Each such step lowers a measure |
| TinyQueue.PopCannotHang | ext/racer/tiny_queue.cc:56-78 | A pop that has an element to take is over after a bounded number of steps in any order of the threads, five more for each push that starts meanwhile, and after at most four of the consumer's own steps however many do |
| Pipeline.ReadKeepsMessages | lib/racer/agent.rb:69-95 | A read of any size leaves the messages of carry and unread bytes the same and in order |
| Pipeline.StepKeepsInv | ext/racer/racer.cc:703-706 | Every step of tracer, worker, flush, receiver and collector keeps the delivery invariant |
| Pipeline.Delivery | ext/racer/worker.cc:137-185 | In every reachable state the emitted traces are the collected ones, the agent's queue, what is on the wire, the worker's trace and the queue, in that order, and the receiver never raises |
| Pipeline.StopMeansDelivered | lib/racer/agent.rb:97-102 | Once stop has been handled everything emitted is collected or in the agent's queue, in order |
| Pipeline.FlushCanMove | ext/racer/racer.cc:939-964 | After the flush has begun some thread can step until everything is delivered |
| Pipeline.FlushDelivers | ext/racer/racer.cc:939-964 | After the flush has begun every run is bounded, and one that can go no further has collected everything that was emitted |
| CallStacks.Tracer.StartTracing | ext/racer/racer.cc:858-874 | Enables the trace point and changes nothing else |
| CallStacks.Tracer.StopTracing | ext/racer/racer.cc:910-936 | Disables the trace point and empties all stacks without emitting |
| CallStacks.Tracer.ProcessCallEvent | ext/racer/racer.cc:604-642 | Pushes a frame on the fiber's stack unless the top has rescued and is of the same method and owner |
| CallStacks.Tracer.ProcessReturnEvent | ext/racer/racer.cc:645-707 | Pops and emits the top frame of the fiber if the method name matches, otherwise changes nothing |
| CallStacks.Tracer.ProcessRescuedEvent | ext/racer/racer.cc:710-740 | Marks the top frame of the fiber if the method name matches |
| CallStacks.WindowTheorem | ext/racer/racer.cc:645-707 | For every well-nested run without confusing calls, what is emitted is exactly the returns of the invocations whose body was entered in the same window, in order |
| CallStacks.StacksAreFaithful | ext/racer/racer.cc:611 | The tracer's stacks are the tracked parts of the program's stacks at every moment if and only if no activation that has rescued directly calls its own method and owner |
| Emissions.EmissionsAreExact | ext/racer/racer.cc:604-707 | For every well-nested run, what is emitted is exactly the returns of the invocations whose body was entered in the same window, in order, if and only if no call that the tracer took for a retry returns in its window |
| Emissions.EmittedOnce | ext/racer/racer.cc:684-706 | In a well-nested run without confusing calls no invocation is emitted twice |
| Emissions.EmittedOnceIff | ext/racer/racer.cc:604-706 | In a well-nested run no invocation is emitted twice if and only if none for which another's return was emitted has a retry that is taken for a call and is then, in the same window, emitted again |
| Emissions.RetriedAfterMisreading | ext/racer/racer.cc:604-706 | A well-nested run in which one invocation is emitted twice |
| CallStacks.FibersAreIndependent | ext/racer/racer.cc:604-642 | For every event sequence, what is emitted for a fiber is what would be emitted if that fiber were seen alone |
| CallStacks.EmissionsAreReturns | ext/racer/racer.cc:604-707 | For every event sequence, well nested or not: each emission has the method name and value of one return event, for an invocation entered before on that fiber under that name in the same window |
| Emissions.BegunAndEndedIff | ext/racer/racer.cc:604-707 | For every well-nested run, what is emitted is the returns of the calls begun and ended in one window if and only if no call taken for a retry returns in its window and no call begun before a window is retried in it and then returns in it |
| CallStacks.OuterRetryIsEmitted | ext/racer/racer.cc:604-616 | A run in which the retry of a call from before the window is emitted |
| CallStacks.ConfusedCallIsMisread | ext/racer/racer.cc:611 | A run in which a recursive call after a rescue is dropped, its return is recorded for the outer call and the outer return is lost |
| BlockCalls.BlockParameter.ProcessBlockCallEvent | ext/racer/racer.cc:742-797 | Pushes a trace on an empty stack, a null on any other, and does nothing once something is recorded |
| BlockCalls.BlockParameter.ProcessBlockReturnEvent | ext/racer/racer.cc:800-834 | Pops the stack and records the popped trace with its value unless it is a null; does nothing once something is recorded |
| BlockCalls.MatchedCall | ext/racer/racer.cc:779-781 | In every sequence of events a first call with a matching return is what is recorded, once, with the value of that return, and the stack is empty from then on |
| BlockCalls.OpenCall | ext/racer/racer.cc:783-796 | Until that return nothing is recorded and the stack is the first call's trace under one null for each other open call |
| BlockCalls.NothingWithoutCalls | ext/racer/racer.cc:812-815 | Returns before any call change nothing |
| BlockCalls.AtMostOneRecorded | ext/racer/racer.cc:742-834 | In every run at most one trace is recorded, a recorded trace means an empty stack, and the stack is empty or one trace with nulls above |
| Exploration.Explorer.ExploreConstant | ext/racer/racer.cc:76-223 | The recursive search computes the described memo map, update list and visited set, and terminates on cyclic graphs |
| Exploration.Explorer.ExploreNamespace | ext/racer/racer.cc:55-74 | Explores the enclosing constants, outermost first |
| Exploration.Explorer.VisitAncestor | ext/racer/racer.cc:144-182 | One round of the ancestor loop: skip self, stop, set the superclass, or list a module that is not yet reached |
| Exploration.Explorer.ScanForMixins | ext/racer/racer.cc:132-183 | The whole loop over the ancestors |
| Exploration.Explorer.VisitExtension | ext/racer/racer.cc:204-212 | One module of the singleton class's ancestors |
| Exploration.Explorer.ScanForExtensions | ext/racer/racer.cc:193-213 | The whole loop over the singleton class's ancestors |
| Exploration.Explorer.TakeUpdates | ext/racer/racer.cc:698-701 | Hands over the entries of all pending constants and empties the list |
| Exploration.ExploreKeeps | ext/racer/racer.cc:76-223 | Exploring any constant of any graph keeps: keys are published, pending or open, without duplicates; references stay inside the map; of every finished constant all namespaces are known, and it has the right superclass and lists only mixins and extensions its ancestor windows call for, and reaches all of them |
| Exploration.NamespacesInOrder | ext/racer/racer.cc:55-74 | Enclosing constants are explored one by one in the given order, each from the memo map that those before it have left |
| Exploration.ExploredComesLast | ext/racer/racer.cc:76-223 | A new constant is added to the pending ones behind those that were pending and all that its exploration adds |
| Exploration.WindowsReadOff | ext/racer/racer.cc:144-182 | What counts as a mixin and as the superclass, read off the ancestors: where the window ends for a class, a module and Object |
| Ledgers.PublishBeforeUse | ext/racer/racer.cc:698-701 | Over every run the memo map's keys are sent or pending, each once; at an emission all named constants and all namespaces of sent constants have been sent, and what was sent is closed under references and complete |
| AncestorWindows.ReachabilityIsTheWindow | ext/racer/racer.cc:141-183 | Without extensions and with transitive windows, reachability over the recorded edges is exactly the ancestor window |
| AncestorWindows.IncludesAreKept | ext/racer/racer.cc:141-213 | Every module of a constant's window is reached over recorded includes and prepends alone, unless something the constant leads to is extended by a module that leads back into the window |
| AncestorWindows.MixReachabilityIsTheWindow | ext/racer/racer.cc:141-213 | With transitive windows nothing but the window is reached over includes and prepends, and under that condition exactly the window |
| AncestorWindows.ExtensionHidesInclude | ext/racer/racer.cc:204-211 | A graph in which a module that the class includes is listed nowhere as included because it extends another listed module |
| AncestorWindows.OrderCanSaveIncludes | ext/racer/racer.cc:141-213 | A graph that violates that condition and loses no include, because of the order of the ancestors |
| Pruning.ListsIff | ext/racer/racer.cc:144-182 | From any memo map on, a module of a constant's window is in its lists if and only if it passes the guard of the scan where it is met first |
| Pruning.ListsInOrder | ext/racer/racer.cc:144-182 | The lists of includes and prepends are exactly the modules of the window that pass the guard, those before the constant prepended and those behind it included, in the order of the ancestors |
| Pruning.ExtendedInOrder | ext/racer/racer.cc:193-213 | The list of extensions stands in the order of the singleton ancestors, each at most once |
| Pruning.KeptIff | ext/racer/racer.cc:141-213 | In every later complete memo map, with transitive windows, a module that a constant includes or prepends itself can be reached over recorded includes and prepends if and only if it passed the guard when the constant was explored |
| Pruning.GuardIff | ext/racer/racer.cc:164-180 | Where ancestors and extensions are modules without namespaces of their own, a module passes the guard if and only if no module before it in the window leads to it over constants that were not known when the scan began |
| Pruning.ListedIff | ext/racer/racer.cc:144-182 | The two together: what is listed, from any memo map on, read off the ancestors and extensions |
| Pruning.IncludeIsKeptIff | ext/racer/racer.cc:141-213 | After exploring a constant from any memo map, namespaces included, a module it includes or prepends itself can be reached over recorded includes and prepends if and only if it passed the guard |
| Pruning.WindowsAreKeptIff | ext/racer/racer.cc:141-213 | Over a complete memo map includes and prepends reach every module of every window if and only if each module that a constant brings in itself is listed by it |
| Pruning.EveryWindowIsKeptIff | ext/racer/racer.cc:76-223 | In every state of every run: includes and prepends describe the windows of all explored constants if and only if every module that a constant brings in itself passed the guard when that constant was explored |
| Publishing.NeedsWereSent | ext/racer/racer.cc:698-701 | From any point of a run on, a trace's owner and the names its constants refer to were published by then |
| Publishing.TracerStreamsAreFiled | lib/racer/collectors/rbs_collector.rb:86-107 | Every stream the tracer can emit publishes before use and is closed under references, so the collector files every trace whose method name is valid |
| Values.ValueToConstantInstance | ext/racer/racer.cc:328-348 | Computes the depth-limited summary of a value |
| Values.GenericArgumentsByValue | ext/racer/racer.cc:242-326 | Computes the generic arguments of that summary, none at the limit or for an empty container |
| Values.UnionOfItems | ext/racer/racer.cc:250-272 | The loop over an array computes the union of the summaries in order of first occurrence, bare ones once |
| Values.UnionsOfEntries | ext/racer/racer.cc:256-321 | The loop over a hash computes the unions for keys and values |
| Values.CompactMembers | ext/racer/racer.cc:259-266 | A union has exactly the members of the list, and no bare member twice |
| Values.CompactKeepsOrder | ext/racer/racer.cc:250-266 | A union is the list of summaries in order, without the repeats of bare members |
| Values.SummaryIsShallow | ext/racer/racer.cc:244 | For every value, self-containing ones included, at most limit minus depth levels of generics are nested |
| Values.BareMeansEmpty | ext/racer/racer.cc:244-254 | Below the limit a bare Array or Hash is the summary of an empty one |
| Values.SummaryNames | ext/racer/racer.cc:328-348 | The name of a summary is the class of the value, Array, Hash or the name of the class object, and only class objects are marked as such |
| Values.ArgumentsGoOneDown | ext/racer/racer.cc:242-326 | Below the limit the arguments of a non-empty container have exactly the summaries of its items, or of its keys and of its values, taken one level further down; at the limit there are none |
| Values.SummaryGoesToTheLimit | ext/racer/racer.cc:242-348 | For every value and every k: an instance stands k levels down in a summary if and only if the limit leaves k levels and it is the summary, at that depth, of something held k levels down in the value |
| Values.BareIsEmptyOrDeepest | ext/racer/racer.cc:244-254 | A bare Array or Hash k levels down in a summary is an empty container, or k is the limit minus the depth |
| Ownership.Allocator.FreeConstantInstance | ext/racer/traces.cc:4-15 | Releases the arrays of all nested generic arguments, then its own |
| Ownership.Allocator.FreeBlockParam | ext/racer/traces.cc:25-41 | Releases the block's name, the recorded block traces and the running ones, skipping nulls |
| Ownership.Allocator.FreeTrace | ext/racer/traces.cc:43-70 | Releases the names, the array of parameters, the instances and the block of a trace and then the trace |
| Ownership.TraceIsFreed | ext/racer/traces.cc:43-70 | What the recursive free releases is, as a multiset, exactly what the trace owns |
| Ownership.ArraysComeLast | ext/racer/traces.cc:4-15 | The array of an instance is released behind the arrays of every instance in it |
| Ownership.TracesComeLast | ext/racer/traces.cc:17-70 | A trace is released behind all traces of its block, recorded or running, and last of all it owns |
| Ownership.BuildOwns | ext/racer/racer.cc:254-271 | Summarising a value leaves exactly the arrays it allocated in the summary, although repeated members are dropped |
| Ownership.BuildSummarises | ext/racer/racer.cc:242-348 | The summary built with allocations is, without addresses, the summary |
| Ownership.SummariesEnableSteps | ext/racer/racer.cc:328-348 | The summaries of any values, built one after the other, own exactly fresh allocations, as every call, return and block event asks for |
| Ownership.BlockChanges | ext/racer/racer.cc:742-834 | Exchanging the block of a trace at any depth of nested block traces changes what the whole trace owns by exactly what was added |
| Ownership.BlockCallAgrees | ext/racer/racer.cc:742-797 | A block call at any depth changes the block there as it changes a block parameter on its own |
| Ownership.BlockReturnAgrees | ext/racer/racer.cc:800-834 | A block return at any depth changes the block there as it changes a block parameter on its own |
| Ownership.AnyDepthIsReached | ext/racer/racer.cc:783-797 | Running calls of blocks that take a block by a name nest to any depth |
| Ownership.StepConserves | ext/racer/racer.cc:613 | Every call, retry, return, pop, free, stop and flush, and every event of a named block of any trace that is not freed, at any depth, keeps all allocations in one place each |
| Ownership.EachInOnePlace | ext/racer/racer.cc:916-934 | In every reachable state each allocation is owned once, by a trace on a stack, by a message in the queue or in the worker's hand, or has been freed once, or is lost |
| Ownership.NothingLeaks | ext/racer/racer.cc:458-484 | Once stacks, queue and hand are empty, everything allocated has been freed, exactly once, if and only if no call took its block by a parameter & and tracing was not flushed |
| Ownership.AnonymousNameIsLost | ext/racer/racer.cc:461-484 | A run at whose end the copied name of a parameter & is freed nowhere |
| RbsTypes.ToRbsType | lib/racer/collectors/rbs_collector.rb:573-622 | The in-place conversion returns the type the functional description gives |
| RbsTypes.DeleteWhileIterating | lib/racer/collectors/rbs_collector.rb:589-593 | The loop that deletes from the array it iterates terminates and computes the described sweep |
| RbsTypes.SweepIsRounds | lib/racer/collectors/rbs_collector.rb:589-593 | What the loop leaves is what is left after as many rounds, each at its own index of the array as it then is, as there were elements; later rounds change nothing |
| RbsTypes.GenericArgumentsOfClass | lib/racer/collectors/rbs_collector.rb:624-637 | Converts the arguments if their number is the class's, fills with untyped otherwise, and gives none for an unknown class |
| RbsTypes.NormalisedUnion | lib/racer/collectors/rbs_collector.rb:573-596 | For every list: no duplicates, no TrueClass or FalseClass, one bool exactly if there was one, every generic instance, survivors in order, and what is missing has no generics and stands beside a surviving generic instance of its name |
| RbsTypes.MergedInOrder | lib/racer/collectors/rbs_collector.rb:574-587 | Before the walk, the list is the elements at indices without an equal one before them, in order and without TrueClass and FalseClass, and then `bool` if there was one of these |
| RbsTypes.UnionsInOrder | lib/racer/collectors/rbs_collector.rb:573-596 | The members of a union are the types of what the walk leaves of that list, in its order; a single alternative is written as it is |
| RbsTypes.TypesStandInOrder | lib/racer/collectors/rbs_collector.rb:573-596 | Every type lists the types of first occurrences among the given summaries, in their order, and `bool` only behind all others |
| RbsTypes.AlternativesExactly | lib/racer/collectors/rbs_collector.rb:577-593 | For every list: an instance is left in the union if and only if it was among the distinct, merged ones and is not a bare one of whose name the walk looks at a generic one |
| RbsTypes.NoneBesideIff | lib/racer/collectors/rbs_collector.rb:589-593 | No bare instance is left beside a generic one of its name if and only if for every bare one with a generic one of its name the walk looks at some generic one of that name |
| RbsTypes.GenericsFirstLeavesNoneBeside | lib/racer/collectors/rbs_collector.rb:589-593 | None is left if in the given list no bare instance stands before a generic one of its name |
| RbsTypes.SweepCanSkip | lib/racer/collectors/rbs_collector.rb:589-593 | A list for which a bare instance survives beside a generic one |
| RbsTypes.TypesAreWellKinded | lib/racer/collectors/rbs_collector.rb:624-637 | Every generated class type has as many arguments as its class has parameters, at all levels, and unions are not empty |
| TypeSoundness.SummaryIsShaped | ext/racer/racer.cc:242-348 | Summaries have arguments only for arrays (one) and hashes (two), never empty ones, nested at most to the limit |
| TypeSoundness.Accepted | lib/racer/collectors/rbs_collector.rb:573-636 | In any list of summaries that holds a clean value's own, the resulting type accepts the value |
| TypeSoundness.SafeAccepted | lib/racer/collectors/rbs_collector.rb:573-636 | The same for any value of which every class object, itself or at any depth inside it, has no name taken for an instance and survives among the summaries of those next to it |
| TypeSoundness.TypesAreSound | lib/racer/collectors/rbs_collector.rb:573-636 | For all finite lists of observed values, every one that is safe among them is accepted by the type made of all their summaries |
| TypeSoundness.NoIdleAlternative | lib/racer/collectors/rbs_collector.rb:573-596 | Every alternative of the type of clean values accepts one of them |
| TypeSoundness.ClassObjectAccepted | lib/racer/collectors/rbs_collector.rb:577-593 | A class object is accepted if and only if its summary survives and its name is not TrueClass, FalseClass or NilClass |
| TypeSoundness.CleanIsExact | lib/racer/collectors/rbs_collector.rb:577-604 | A class object is accepted whatever else was seen if and only if it is clean |
| TypeSoundness.FlatCleanIsExact | lib/racer/collectors/rbs_collector.rb:577-636 | An array or hash without nested ones is accepted whatever else was seen if and only if it is clean: each class object in it survives among the summaries of its siblings and has no name taken for an instance |
| Admission.PlainAccepted | lib/racer/collectors/rbs_collector.rb:573-622 | A value that is no array, hash or class object is accepted by the type of a list of summaries if and only if its class is covered by the list |
| Admission.AdmittedIff | lib/racer/collectors/rbs_collector.rb:573-637 | Any value, arrays and hashes nested to any depth included, is accepted by the type of any list of summaries if and only if the list admits it |
| Admission.RobustIff | lib/racer/collectors/rbs_collector.rb:573-637 | Any value is accepted whatever else was seen if and only if, an array or hash, the summaries of its contents admit each of its contents or leave them open, and, a class object, it is clean |
| Equality.InstanceEquality | lib/racer/trace.rb:55-58 | Field-by-field equality of instances is structural equality through nested generics |
| Equality.ParamsEquality | lib/racer/trace.rb:84-87 | Equality of parameter lists is structural |
| Equality.BlockParamEquality | lib/racer/trace.rb:102-104 | Equality of block parameters is structural, blocks nested in blocks included |
| Equality.BlockTraceEquality | lib/racer/trace.rb:117-119 | Equality of block traces is structural |
| Collector.RbsCollector.PushConstantToResults | lib/racer/collectors/rbs_collector.rb:164-201 | Records a constant once, without the mixins that are declared already, and notes the modules of Object |
| Collector.RbsCollector.Collect | lib/racer/collectors/rbs_collector.rb:86-116 | Publishes the constants, then stores, drops or rejects the trace as described; the lookup of an unknown owner fails |
| Collector.HasShape | lib/racer/collectors/rbs_collector.rb:109-113 | Finds out whether a kept trace has the same parameters, return type and block |
| Collector.KeepsFirstOccurrences | lib/racer/collectors/rbs_collector.rb:86-116 | After any stream the list kept under a filing key is the first occurrences for that key in the stream, in order, and the owners are the published names; `Collector.FiledByKind` says the same of the fields of the traces |
| Collector.FiledByKind | lib/racer/collectors/rbs_collector.rb:86-116 | After any stream the instance methods recorded for a class hold under each name exactly the traces with a valid name, of instance methods of that name, called on that class, of which none of the same parameters, return type and block came before, in order; the singleton methods likewise |
| Collector.FiledTracesAreFound | lib/racer/collectors/rbs_collector.rb:93-115 | Every trace with a valid name has one with its parameters, return type and block in the map for its own kind of method, under its name and the class it was called on |
| MethodNames.ValidNamesMatch | lib/racer/collectors/rbs_collector.rb:41-48 | For every string: it is accepted as a method name if and only if the regular expression matches it |
| Collector.CollectingAgainChangesNothing | lib/racer/collectors/rbs_collector.rb:109-113 | Collecting a trace of the stream again leaves the results unchanged |
| Collector.OwnersAreKnown | lib/racer/collectors/rbs_collector.rb:93-109 | For every stream, the lookup of a trace's owner fails if and only if its method name is valid and its owner is not published by then |
| Collector.ConstantsAreRecorded | lib/racer/collectors/rbs_collector.rb:164-201 | What is recorded about a constant is what was published about it first, without declared mixins |
| Collector.UndeclaredRemain | lib/racer/collectors/rbs_collector.rb:171-187 | Of each mixin list exactly the modules remain that are not declared for the same purpose |
| Collector.UndeclaredInOrder | lib/racer/collectors/rbs_collector.rb:171-187 | They stand in their order, and nothing else about the constant changes |
| Collector.ReferencesResolve | lib/racer/collectors/rbs_collector.rb:203-218 | If published constants are closed under references, no lookup of a referenced name misses |
| Parameters.MethodParameters | lib/racer/collectors/rbs_collector.rb:432-513 | The loop builds the described record, or gives up on lists of different sizes |
| Parameters.NamesAreWritten | lib/racer/collectors/rbs_collector.rb:432-513 | The required parameters before and behind the rest parameter and the optional ones have the names of the observed ones, in order; the keywords are the observed ones; the rest parameters have their names, or none when anonymous |
| Parameters.RecordKeepsPositionals | lib/racer/collectors/rbs_collector.rb:455-484 | The record determines the positional parameters in order, none lost and none twice, if and only if a required one follows an optional one only after a rest parameter and nothing but required ones follow a rest parameter |
| Parameters.RecordKeepsKeywords | lib/racer/collectors/rbs_collector.rb:485-496 | The record holds exactly the keyword parameters of distinct names, each with its type |
| Overloads.ToOverloads | lib/racer/collectors/rbs_collector.rb:373-420 | The grouping loop and the conversion of each group compute the described overloads |
| Overloads.ToMethodDefinition | lib/racer/collectors/rbs_collector.rb:351-430 | Writes nothing if the owner declares the method already; otherwise the described overloads, overloading exactly if the callee declares it, private exactly if the last trace is |
| Overloads.ToOverload | lib/racer/collectors/rbs_collector.rb:394-419 | Converts one group |
| Overloads.ToBlock | lib/racer/collectors/rbs_collector.rb:518-540 | Converts the blocks of one group; without recorded calls the function is untyped and the block optional |
| Overloads.GroupsPartition | lib/racer/collectors/rbs_collector.rb:373-384 | Keys are distinct, each group holds exactly the traces with its key in order, and every trace has a group; what it means to have one key is in `Overloads.SameGroupIff` |
| Overloads.SameGroupIff | lib/racer/collectors/rbs_collector.rb:373-384 | Two traces are in one group if and only if their parameters are equal and both or neither have a block, of which the first calls, if recorded, took parameters of the same names and kinds |
| Overloads.GroupsInOrder | lib/racer/collectors/rbs_collector.rb:373-384 | The first traces of the groups are exactly the traces with no earlier one alike, in order, and each group is exactly the traces alike to its first, in order |
| Overloads.OverloadsInOrder | lib/racer/collectors/rbs_collector.rb:373-420 | The overloads stand in that order; each has the names of its first trace's parameters and lists what the traces alike to it returned, in order of first occurrence, or nothing exactly for `initialize` |
| OverloadSoundness.BlockSetsAreAlike | lib/racer/collectors/rbs_collector.rb:397-405 | The block parameter lists of a group all have the same size, names and kinds, so the mismatch bail-out never fires |
| OverloadSoundness.RequiredIfCalled | lib/racer/collectors/rbs_collector.rb:518-519 | An overload has a block exactly if some trace of its group was given one; the block is required exactly if some block of the group was called; a block that never was called is an untyped function without self type, one that was has a signature and a self type |
| OverloadSoundness.ParametersAccept | lib/racer/collectors/rbs_collector.rb:432-513 | The record made from alike parameter lists accepts the values bound to any one of them that are safe among the types at their places |
| OverloadSoundness.UnnamedAccepted | ext/racer/racer.cc:531-534 | The type of an unnamed parameter accepts a value if and only if it is an array |
| OverloadSoundness.OverloadsAreSound | lib/racer/collectors/rbs_collector.rb:373-540 | Every orderly call that a kept trace describes is accepted by its group's overload - parameters, return value and recorded block call - if each value is safe among the types it is grouped with |
| OverloadSoundness.BlockRestAccepted | lib/racer/collectors/rbs_collector.rb:472-509 | The contents of a block's rest or keyword rest parameter, whatever they are, are accepted if and only if the type is untyped or the first block call's summaries admit every one of them |
| OverloadSoundness.LaterRestIsRejected | lib/racer/collectors/rbs_collector.rb:453 | Two block calls of which the second's rest arguments are not accepted |
| OverloadExactness.ParametersAcceptIff | lib/racer/collectors/rbs_collector.rb:432-513 | The record made from alike parameter lists accepts the values bound to any one of them, contents of rest parameters included, if and only if the types at their places admit them |
| OverloadExactness.OverloadsAreExact | lib/racer/collectors/rbs_collector.rb:373-540 | An orderly call that a kept trace describes is accepted by its group's overload, with all contents, if and only if each value is admitted by the types the group holds at its place |
| OverloadExactness.CleanCallsAreAccepted | lib/racer/collectors/rbs_collector.rb:373-540 | A call whose values are all clean is safe in its group and accepted by the group's overload |
| Signatures.EveryCallIsAccepted | lib/racer/collectors/rbs_collector.rb:86-540 | For every stream of observed calls, each orderly call that could be filed, dropped repeats included, is accepted by the overload of its group among those for its owner, kind and name, if its values are safe among those it is grouped with |
| Signatures.EveryCallIsJudged | lib/racer/collectors/rbs_collector.rb:86-540 | For every such call the overload of its group accepts it, with all contents, if and only if its values are admitted by the types it is grouped with |
| Signatures.CleanCallsAreSafe | lib/racer/collectors/rbs_collector.rb:86-540 | A clean call is safe among whatever it is grouped with |
| Signatures.TracedCallsAreAccepted | ext/racer/racer.cc:698-706 | For every stream the tracer can emit, each orderly observed call with a valid method name is filed under its published owner and, if its values are safe, accepted by the overload of its group |
| EndToEnd.CompletedCallsAreCollected | ext/racer/racer.cc:939-964 | In a well-nested run without dropped returns, once the flush is over, the collected traces describe the completed calls of the program, all of them, in order |
| EndToEnd.CompletedCallsAreAccepted | lib/racer/collectors/rbs_collector.rb:86-540 | Each of those calls with a valid name and orderly parameters is filed; the overload of its group accepts it if its values are safe, and with all contents if and only if they are admitted |

## Left out

- Codec.TraceRoundTrip: tokens of an unexpected type, which the writers never produce, are malformed in the model; the program carries some of them on untyped and raises later.
- JsonText.TextRoundTrip: covers the JSON that is printed (one flat array of strings, integers, booleans and null, without white space), not all that the JSON libraries read; a character stands for one byte.
- Wire.ShiftConstant: tokens of an unexpected type, which Ruby carries on untyped, count as malformed.
- Wire.ShiftConstantUpdates: tokens of an unexpected type count as malformed.
- Wire.ShiftConstantInstance: tokens of an unexpected type count as malformed.
- Wire.ShiftParam: tokens of an unexpected type count as malformed, and the warning for an unknown kind is not recorded.
- Wire.ShiftParams: tokens of an unexpected type count as malformed.
- Wire.ShiftBlockTrace: tokens of an unexpected type count as malformed.
- Wire.ReadTrace: tokens of an unexpected type count as malformed, and of the warnings only the one for left-over tokens is recorded.
- CallStacks.Tracer.StartTracing: the path filter, the depth of generics and the set-up of the connection are not part of it.
- CallStacks.Tracer.ProcessCallEvent: the owner, visibility and parameters of the pushed trace are not part of it; `Values` and `Exploration` model what is recorded for them.
- Exploration.Explorer.ExploreConstant: names made up for anonymous constants and the renaming after a NameError are not modelled.
- Exploration.Explorer.ExploreNamespace: the lookup of a namespace does not raise.
- Values.ValueToConstantInstance: a negative maximum depth, with which the depth is unlimited, is not modelled, as the summary of a value that contains itself then never ends.
- Values.GenericArgumentsByValue: a negative maximum depth is not modelled.
- TypeSoundness.TypesAreSound: values that are or contain class objects which the code confuses are excluded; exactly which values are accepted is in `Admission.AdmittedIff`.
- AncestorWindows.IncludesAreKept: the condition is sufficient for any order of exploration, not necessary; the exact one is in `Pruning`.
- Pruning.IncludeIsKeptIff: the guard is the exact condition for a module that no other module of the window brings in, where windows contain the windows of their modules.
- Pruning.ListedIff: reads the guard off ancestors and extensions only where these are modules without namespaces of their own; `Pruning.ListsIff` has no such limit.
- Collector.RbsCollector.Collect: constant names are valid already.
- Overloads.ToOverloads: visibility, the overloading flag and the early return for declared methods are in `Overloads.ToMethodDefinition`.
- OverloadSoundness.OverloadsAreSound: values that are not safe among those they are grouped with are excluded, and the contents of a block's rest parameters are claimed only where their generics are those of the first block call; `OverloadExactness.OverloadsAreExact` says exactly which calls are accepted. Parameter lists whose positional order the record cannot hold are excluded; unnamed parameters are taken to be given arrays.
- EndToEnd.CompletedCallsAreAccepted: which values a completed call had, and that the trace pushed for an emission describes them, is an assumption.
- Exploration.ExploreKeeps: each constant has one fixed, unique, valid name; the names made up for anonymous constants, and the renaming after a NameError, are not modelled.
- Ownership.StepConserves: the trace point of a block's own block is never disabled, so its events could come after the trace it belongs to is freed; such events are not steps, all others are, on stacks, in the queue and in the worker's hand. The call stacks of all fibers are one list in order of the calls.
- Ownership.EachInOnePlace: the constants, which are shared pointers, their names and the queue itself are not followed.
- Ownership.Allocator.FreeTrace: names, array and instances of a trace are released in the order in which they were listed, before the block; the program releases the receiver of a block behind it.
- CallStacks.WindowTheorem: exceptions that unwind a frame end it with a return event, as the VM reports them.
- The Ruby VM and the TracePoint API: reading parameters, bindings, visibility and method owners, the choice between owner and callee, and the filter on paths with its cache. The value of a parameter is the one bound at the call event.
- The RBS library: loading the environment, building definitions (which methods are declared already is an input), self types, superclasses and interface members; file names and file output.
- `find_self_types` beyond the fact that its lookups never miss, including its branch for existing types.
- The order in which keys of Ruby hashes are listed, except for the overloads.
- Names that need to be made valid constant names.
- Socket errors, partial sends, the worker's early exit on a failed send, failed allocation, and the receiving loop's spinning at the end of a stream without `stop`.
- Several clients at once, forks, signals, `at_exit` ordering, the agent closing its queue, and destroying the queue.
- The Minitest, RSpec and Rails integrations.
