# Verification model of dyn-utils

`dyn-utils` stores trait objects in generic storages (`Raw`, `Box`, `RawOrBox`) behind a `DynObject`, and
generates dyn-compatible traits and vtables with procedural macros. The model has three parts.

**Storages and objects** (`src/storage.rs`, `src/object.rs`, `src/impls.rs`). An abstract machine has stack
slots and heap blocks made of cells; a cell is uninitialised, a byte, or one fragment of a pointer, so a
pointer or a vtable reference survives being copied cell by cell. The storages and `DynObject` are methods that
allocate, write, copy and free such cells, and that reach the stored value through the pointer or the vtable
they find in them. Values may own further `DynObject`s over any storage, to any depth. `Client` is the
specification: a client program over trees, in which storages, addresses, blocks and vtables do not occur.
`Runner` executes client programs on the machine and is proved to refine `Client.Run`; `ClientLaws`,
`Conservation` and `Invisible` prove what then holds of every run.

- `Layout`, `Memory`, `Data`, `Values`: layouts, the machine, what is passed to methods, and what it means for cells
  to hold a tree of values
- `Storage`, `Object`, `Any`, `Dispatch`: the operations, each proved against the tree it acts on
- `Client`, `ClientLaws`, `Machine`, `Runner`, `Conservation`, `Invisible`, `Placement`: whole programs

**Macros** (`macros/src`). `Syntax` is the fragment of trait syntax the macros read. A region is a set of program
points and outliving is inclusion (`Regions`). `Lifetimes` proves when the rewriting of lifetimes is sound and
when it is complete. `Patterns` proves that cleared patterns forward the arguments. `DynObjectMacro` is the vtable
macro, and `ObjectCalls` carries its calls by name down to the vtables and bytes of the machine. `DynMethod`,
`DynTraitMacro` and `DynTraitLaws` are `dyn_trait`, from one signature to the item loop; `DynTraitRuns` proves that whole
runs of a client of the generated trait mean what they mean for the original one, `DynTraitMachine` performs those runs
on the machine with the returned values in any storage, and `AsyncTypes` builds implementations with compiled async
methods. `Witnesses` has concrete methods at which the macros' conditions fail, and types that meet those of the machine.

**`MaybeSync`** (`src/lib.rs`, `macros/src/sync.rs`). `MaybeSync` is the polled state machine and `SyncShortcut` the
synchronous fast path and its agreement with the asynchronous one.

## What is taken for granted

- A pointer is 8 bytes, the `vtable` field follows the `storage` field, and `RawOrBox` has a discriminant byte after
  its larger variant. Any other non-overlapping placement would do. `repr(C)` and `elain::Align<ALIGN>` give a `Raw`
  the alignment ALIGN with its buffer at offset 0.
- `TypeId`s of different types differ. `needs_drop` may be true without need but is never false for a type that has a
  destructor or owns a `DynObject`.
- A `DynObject` of the machine has one vtable type with the drop function, the layout, the type id and the trait's
  methods, so that `dyn Any` and a user trait are one case.
- A user's method reads and writes the plain bytes of its value (a `&self` method only reads them), takes and returns
  any data, and reaches other state by taking it and returning it; the objects a value owns are used in place through
  their own methods, to any depth.
- What is passed to a call is live at the call: every region contains that point.
- The compiler makes of an async method a future that, polled, runs its body, and nothing happens at the call. A future
  whose body does not await has nothing to drop, polled or not.
- Types are given with the variance of each constructor in its lifetimes and in its types. Tuples, slices and `dyn`
  types are constructors. A lifetime may be hidden only in a path.

## Findings

The macros keep their promises under conditions that the proofs make exact.

- The lifetime rewriting is sound exactly if, whenever elided lifetimes are captured, no parameter elides a lifetime
  inside a `Fn`, and, without `use<..>`, no parameter has a hidden lifetime that is not behind a reference
  (`Lifetimes.SoundIff`). A parameter `Context` would break it, `&mut Context` does not.
- The generated method can take every call of the original one, for some choice of the regions of the lifetimes, exactly
  if the elided lifetimes of the parameters can shrink together: when they are captured, none is inside a `Fn`, and for
  some set of named lifetimes both these and the elided ones are at covariant positions only, every named lifetime of a
  reference over one of them is in the set, and so is every lifetime that one of the set must outlive
  (`Lifetimes.CompleteIff`). `&mut Vec<&str>` as a parameter loses calls; `&'a &str` does not, because `'a` can be chosen
  again (`Witnesses.NamedShrinks`).
- That condition is for receivers with an elided lifetime. With a named one it is sufficient but not necessary
  (`Witnesses.NamedReceiver`).
- With an elided receiver lifetime the returned object has the traits of the original value in all calls exactly if,
  whenever elided lifetimes are captured, no bound of the return type and none of its bindings elides a lifetime inside a
  `Fn` (`Lifetimes.OutputKeptIff`). `async fn f(&self) -> fn(&str) -> str` meets all the conditions above and fails this
  one in every call, since the visitor makes its `Output` a `fn(&'__dyn str) -> str` (`Witnesses.FnOutput`).
- A `use<..>` that does not list a lifetime leaves it alone: it may end before `'__dyn` exactly if no bound and no
  reference ties it to something that must not (`Lifetimes.MayEndIff`).
- `use<'_>` is read as capturing every elided lifetime, which bounds `'__dyn` by more than the receiver's
  (`Witnesses.UseElided`).
- The generated trait has trait objects exactly if no kept method names `Self` outside its receiver otherwise than as
  `Self::A` (`DynTraitLaws.ItemLoop`): `is_dispatchable` does not look for it, so `fn same(&self, other: &Self)` is kept
  and emitted (`Witnesses.SelfParameter`).
- A vtable entry and its call agree on their function-pointer type, lifetimes aside, exactly if `Self` occurs in
  parameters and output only as `Self::A` (`DynObjectMacro.TransmuteAgrees`), and on the receiver unless it is
  `Pin<&Self>` (`DynObjectMacro.ReceiverAgrees`).
- The shortcut of `sync` runs the body at the call. A caller that polls at once cannot tell (`SyncShortcut.ShortcutAgrees`).
  To callers that poll later it is invisible, from every state and whatever happens in between, exactly if the body
  neither changes the state nor computes its value from it (`SyncShortcut.InvisibleIff`); an effect-free body that reads
  the state is a case where it shows (`SyncShortcut.ReadsLate`).

## Model

| member | source | states |
|---|---|---|
| Placement.SmallerDivides | src/storage.rs:102-104 | of two powers of two the smaller divides the larger, which `can_store` relies on for alignments |
| Placement.CanStoreIsFits | src/storage.rs:86-104 | `can_store` holds if and only if the value is in bounds and aligned wherever a `Raw` may be placed |
| Placement.RawArray | src/storage.rs:352-373 | in an array of `Raw`s every element is aligned and the buffers are disjoint |
| Placement.ValuePlaced | src/storage.rs:20-36 | the pointer to stored data is aligned for its type and points to real memory unless the type is zero-sized, for every storage |
| Placement.TreeAligned | src/storage.rs:26-36 | at any depth of nested objects and in every storage, stored values are aligned for their types |
| Memory.PointerRoundTrip | src/storage.rs:163-170 | a pointer stored in cells is read back unchanged |
| Memory.Memory.Allocate | src/storage.rs:175-177 | allocation gives a new block with the requested layout and records it |
| Memory.Memory.Deallocate | src/storage.rs:184-190 | only a live block is released, with the layout it was allocated with, and the record of allocations stays consistent |
| Storage.RawNewUnchecked | src/storage.rs:129-140 | the data is written at offset 0 and the rest stays uninitialised |
| Storage.BoxNew | src/storage.rs:175-177 | one block with the layout of the data is allocated, none for a zero-sized type |
| Storage.New | src/storage.rs:248-260 | the storage holds the value; it is in place exactly when `can_store` holds for `RawOrBox`, always for `Raw`, never for `Box` |
| Storage.Unbox | src/storage.rs:230-233 | moving out of a box keeps the value and releases exactly the box's own block |
| Storage.FromBox | src/storage.rs:230-236 | a `RawOrBox` that can store the data moves it in place and frees the box, otherwise the same block is kept |
| Storage.AsMut | src/storage.rs:275-296 | at the constructed type the unreachable arms are not taken, and the address is that of `ptr` and of the stored value |
| Storage.StoredAt | src/storage.rs:261-274 | `ptr` points to the stored value in every storage and variant |
| Storage.DropInPlace | src/storage.rs:297-305 | with the layout of the stored data exactly the storage's own block is released |
| Storage.BoxDropInPlace | src/storage.rs:184-190 | a block is released, with its layout, unless the type is zero-sized |
| Object.NothingToDrop | src/object.rs:158-163 | when `needs_drop` is false, omitting the destructor omits no event and no block |
| Object.New | src/object.rs:40-49 | the object holds the value with the vtable built for its type and its storage |
| Object.FromBox | src/object.rs:53-63 | the same from a boxed value, freeing the box exactly when the data is moved in place |
| Object.StorageOf | src/object.rs:65-78 | in every valid object the vtable is the one of the stored type, and the storage has the shape that type gives it |
| Object.DropValue | src/object.rs:158-163 | a value's destructor runs once, then its objects are dropped in order, releasing exactly the blocks they own |
| Object.DropObject | src/object.rs:106-118 | dropping an object drops every value of its ownership tree once and releases exactly the tree's blocks, leaving all else unchanged |
| Object.DropBox | src/storage.rs:166-170 | dropping a standard box releases the tree of its value and its own block |
| Any.Downcast | src/impls.rs:46-83 | succeeds if and only if the type is the stored one; then the value is returned undropped and only its storage released, otherwise nothing changes |
| Any.ReadOut | src/impls.rs:69-79 | the value read out stays whole after its storage is released |
| Dispatch.WritePlain | src/impls.rs:59-63 | writing a value's own bytes leaves the objects it owns and all other memory unchanged |
| Dispatch.WriteField | src/storage.rs:42-50 | using an object inside a value changes that field and the blocks it owns, and nothing else |
| Dispatch.Around | src/storage.rs:42-50 | after a mutation of the stored value the object has the same vtable, variant, address and blocks |
| Dispatch.RunEntry | src/impls.rs:141-160 | a vtable entry runs the method of the stored type, at the entry's receiver, on the stored value: a `&self` entry writes nothing, the others change only the target's bytes |
| Dispatch.ActHere | src/impls.rs:39-63 | a call runs the method of the stored type on the stored bytes; `downcast_mut` overwrites them exactly at the stored type, `downcast_ref` gives them there, and both are `None` at any other type and then change nothing |
| Dispatch.Access | src/impls.rs:50-63 | the same for an object nested at any depth in stored values |
| Machine.Settle | src/object.rs:106-118 | a change of the heap outside a variable's blocks leaves its value as it was |
| Machine.ObjectSeen | src/object.rs:106-118 | the destructors that run are those of the dropped tree, in its order, whatever the storages |
| Runner.Runner.Make | src/object.rs:24-28 | building a value moves the objects it owns into place, each once |
| Runner.Runner.New | src/object.rs:40-49 | `DynObject::new` is invisible to the client but for moving the value |
| Runner.Runner.BoxNew | src/storage.rs:175-177 | boxing a value keeps it |
| Runner.Runner.FromBox | src/object.rs:53-63 | `from_box` gives the same object as `new`, on both of its paths |
| Runner.Runner.Move | src/object.rs:24-28 | moving an object keeps its value and blocks |
| Runner.Runner.Use | src/impls.rs:39-63 | a use of an object gives the specified outcome, and no stored value of any variable, nested at any depth, changes place |
| Runner.Runner.Downcast | src/impls.rs:68-83 | a failed `downcast` gives the same object back; a successful one gives the value last written |
| Runner.Runner.Insert | src/object.rs:87-94 | the slot holds the new value, exactly the old one is dropped, and the returned reference is to the value in place |
| Runner.Runner.Drop | src/object.rs:106-118 | dropping a variable logs the drop of its whole tree and nothing else |
| Runner.Runner.Drive | src/object.rs:96-103 | through any sequence of calls or polls of a pinned object every stored value, nested ones too, keeps its address, in place or boxed |
| Runner.Runner.Step | src/object.rs:38-118 | every client step keeps the machine invariant and refines the step on trees |
| Runner.Runner.Execute | src/object.rs:38-118 | over every client program the outcomes, values and user destructors are those of the trees, whatever the storages; and values in variables that the program does not move, drop, replace, consume or downcast keep their addresses, at every depth |
| Runner.Runner.HeapRestored | src/storage.rs:184-190 | with no variable left the heap is exactly the one the program started with |
| Runner.Indistinguishable | src/storage.rs:20-69 | two programs that differ only in storages, sizes, alignments and drop glue give equal outcomes on the machine and run the same user destructors in the same order |
| ClientLaws.AtPath | src/impls.rs:50-63 | an object nested at any depth is read, overwritten and called as a value of its type, and nothing else in the tree changes |
| ClientLaws.WrittenIsRead | src/impls.rs:50-63 | what `downcast_mut` writes, at any depth, `downcast_ref` reads later, whatever a program does to other variables in between |
| ClientLaws.ComesBack | src/impls.rs:65-83 | a value stored in any storage that accepts it comes out by `downcast` to its type as it went in, and at another type the object comes back |
| ClientLaws.BoxComesBack | src/object.rs:53-63 | a boxed value is the one in the object made by `from_box` |
| ClientLaws.Moved | src/object.rs:24-28 | a moved object is the same object |
| ClientLaws.Inserted | src/object.rs:86-93 | after `insert` the variable holds the new value, which can be read at once, and the old one was dropped |
| ClientLaws.PartsUsed | src/object.rs:40-49 | using a part of a value is using the object that was moved into it |
| Invisible.AccessAlike | src/impls.rs:50-63 | layouts and storages of types do not influence an access |
| Invisible.RunAlike | src/storage.rs:20-69 | nor do they influence any outcome of any program in which both compile |
| Conservation.DropLogCounts | src/object.rs:106-118 | dropping a tree drops each value in it exactly as often as it occurs |
| Conservation.AccessKeeps | src/impls.rs:50-63 | using an object makes, drops and loses no value |
| Conservation.PartsMoved | src/object.rs:24-28 | moving objects into a value neither loses nor duplicates any |
| Conservation.StepConserves | src/object.rs:87-118 | every step keeps each value live once or dropped once |
| Conservation.RunConserves | src/object.rs:87-118 | so does every program |
| Conservation.AllDroppedOnce | src/object.rs:106-118 | a program that ends with no variable has dropped every value it made exactly once, counting those returned by `downcast` as live until they are dropped |
| Witnesses.HiddenLifetime | macros/src/dyn_trait.rs:396-401 | `a: Context` with a hidden lifetime: the generated method accepts a call in which that captured lifetime does not outlive `'__dyn` |
| Witnesses.ElidedInFn | macros/src/dyn_trait.rs:396-401 | `a: fn(&str) -> str`: no call of the generated signature is a call of the original |
| Witnesses.InvariantElided | macros/src/dyn_trait.rs:376-402 | `a: &mut Vec<&str>`: a call of the original method that is one of the generated method for no choice of regions |
| Witnesses.NamedShrinks | macros/src/dyn_trait.rs:376-402 | `a: &'a &str`: no call is lost, but some call needs `'a` chosen again |
| Witnesses.FnOutput | macros/src/dyn_trait.rs:249-268 | `async fn f(&self) -> fn(&str) -> str`: the parameters meet every condition, and in no call has the returned object the declared `Output` |
| Witnesses.SelfParameter | macros/src/utils.rs:30-36 | `a: &Self`: the trait is accepted and its generated trait is not dyn-compatible |
| Witnesses.FutureSend | tests/test.rs:20-20 | `future_send<'a>(&'_ self, s: &'a str)` with `use<Self>`: nothing is captured, the parameters stay, and `'a` may end before `'__dyn` |
| Witnesses.GenericMethod | macros/src/utils.rs:30-36 | `fn f<U>(&self, u: U)` is refused by `dyn_object` and skipped by `dyn_trait` |
| Witnesses.BareSelfParameter | macros/src/dyn_object.rs:266-301 | `a: Self`: the entry and its call have different function-pointer types |
| Witnesses.PinnedShared | macros/src/dyn_object.rs:242-253 | `self: Pin<&Self>`: the entry passes another receiver than the method declares |
| Witnesses.UseElided | macros/src/dyn_trait.rs:362-371 | `a: &str` with `use<'_>`: `'__dyn` is within the argument's lifetime, which the return type does not capture |
| Witnesses.NamedReceiver | macros/src/dyn_trait.rs:376-402 | `&'a self, a: Cell<&Foo<'a>>`: an invariant elided lifetime with which no call is lost |
| MaybeSync.SyncPolls | src/lib.rs:138-149 | a `Sync` is ready with its value on the first poll and panics on every later one |
| MaybeSync.AsyncPolls | src/lib.rs:138-149 | an `Async` has exactly the poll trace of the future it holds |
| MaybeSync.OutputMovedOnce | src/lib.rs:129-135 | the output is moved out at most once |
| MaybeSync.MaybeSyncCell.TakeSync | src/lib.rs:129-135 | on a `Sync` the unreachable arm is not reached, the value is moved out and `SyncPolled` left |
| MaybeSync.MaybeSyncCell.Poll | src/lib.rs:140-149 | one poll advances the state in place as the state machine does, `take_sync` being called on `Sync` only |
| MaybeSync.MaybeSyncCell.PollTimes | src/lib.rs:138-149 | any number of polls has the specified trace |
| SyncShortcut.FirstPoll | src/lib.rs:138-149 | an await-free body is finished by its first poll, with the value and the state of the synchronous function |
| SyncShortcut.SyncImpl | macros/src/sync.rs:7-20 | `sync` keeps the method and adds its synchronous copy and the constant, and is an error exactly on methods that are not async |
| SyncShortcut.ShortcutAgrees | macros/src/dyn_trait.rs:334-348 | calling and polling at once gives the same ready value and state with the shortcut and without |
| SyncShortcut.ShortcutPanics | src/lib.rs:147-147 | polling again panics in both cases |
| SyncShortcut.LatePoll | macros/src/dyn_trait.rs:341-345 | what a poll after any change of the state gives: with the shortcut the value of the state at the call, without it that of the state at the poll |
| SyncShortcut.InvisibleIff | macros/src/dyn_trait.rs:341-345 | the shortcut is invisible to callers that poll late, from every state and for every change in between, if and only if the body is inert |
| SyncShortcut.ReadsLate | macros/src/dyn_trait.rs:341-345 | an effect-free body that reads the state is told apart by a late poll |
| SyncShortcut.FoundDecl | macros/src/sync.rs:7-27 | in a whole `impl`, the generated names find the shortcut, with its body, exactly for the decorated methods |
| SyncShortcut.OnlyDecorated | macros/src/sync.rs:22-27 | a constant that is `true` belongs to a decorated method |
| SyncShortcut.Expand | macros/src/sync.rs:7-20 | expanding `sync` method by method gives those items, and fails exactly on a decorated method that is not async |
| Lifetimes.UniformRewrite | macros/src/dyn_trait.rs:376-402 | rewriting keeps a type's meaning if and only if its elided lifetimes mean `'__dyn` and none is inside a `Fn`, or they are not captured |
| Lifetimes.RewriteInst | macros/src/dyn_trait.rs:376-402 | the instances of a rewritten type are those of the original with `'__dyn` at the captured elided lifetimes |
| Lifetimes.FnClash | macros/src/dyn_trait.rs:396-401 | an elided lifetime rewritten inside a `Fn` leaves no type that is an instance of both |
| Lifetimes.HiddenAbove | macros/src/dyn_trait.rs:396-401 | hidden lifetimes behind references outlive `'__dyn` by well-formedness alone |
| Lifetimes.CapturedIff | macros/src/dyn_trait.rs:362-371 | what is captured is what the first `use<..>` lists, or the lifetime parameters and the elided ones when there is none |
| Lifetimes.MayEndIff | macros/src/dyn_trait.rs:376-402 | a lifetime may end before `'__dyn` in some call of the generated method if and only if it is in a set of lifetimes that are not captured, are outlived by none that is required to, and are behind no reference that outlives `'__dyn` |
| Lifetimes.EndingCall | macros/src/dyn_trait.rs:383-387 | such a set gives a call in which all its lifetimes end before `'__dyn` |
| Lifetimes.TypeKeptIff | macros/src/dyn_trait.rs:376-402 | a receiver or parameter means the same in both signatures if and only if it elides nothing, or elided lifetimes are not captured |
| Lifetimes.DynDeclared | macros/src/dyn_trait.rs:265-267 | the generated signature declares `'__dyn` first, without bounds, and every lifetime that it names |
| Lifetimes.DynGenericsHold | macros/src/dyn_trait.rs:383-387 | the generated lifetime bounds hold exactly if the declared ones do and every captured lifetime outlives `'__dyn` |
| Lifetimes.DynPredsHold | macros/src/dyn_trait.rs:259-264 | the generated where clause holds exactly if the declared one does and `Self` and the trait's type parameters outlive `'__dyn` |
| Lifetimes.Sound | macros/src/dyn_trait.rs:242-269 | a call of the generated signature is a call of the original one in which everything captured outlives `'__dyn` |
| Lifetimes.SoundIff | macros/src/dyn_trait.rs:242-269 | that holds of all calls if and only if the parameters are rewritable |
| Lifetimes.Complete | macros/src/dyn_trait.rs:242-269 | every call of the original extends to the generated signature, for every `'__dyn` within the captured lifetimes, any set of named lifetimes that can shrink with the elided ones being chosen again as `'__dyn` |
| Lifetimes.NeverUsable | macros/src/dyn_trait.rs:376-402 | if there is no such set, some call extends for no choice of `'__dyn` and of the named lifetimes |
| Lifetimes.CompleteIff | macros/src/dyn_trait.rs:242-269 | all calls extend, for some choice of the named lifetimes, if and only if the elided lifetimes of the parameters can shrink to one together with some named ones, the receiver's being elided |
| Lifetimes.UsableShrinks | macros/src/dyn_trait.rs:376-402 | where the call with the shortest receiver extends, the lifetimes chosen small are such a set |
| Lifetimes.OutputIff | macros/src/dyn_trait.rs:250-258 | the returned `dyn` has the traits of the `impl` if and only if no elided lifetime in the bounds changes its meaning |
| Lifetimes.OnlyDyn | macros/src/dyn_trait.rs:252-257 | the only lifetime bound of the returned object is `'__dyn` |
| Lifetimes.OutputSound | macros/src/dyn_trait.rs:249-268 | in every call with an elided receiver lifetime, the returned object has the traits of the original value if and only if no bound or binding elides a lifetime inside a `Fn`, or elided lifetimes are not captured |
| Lifetimes.OutputKeptIff | macros/src/dyn_trait.rs:249-268 | so it has them in all calls if and only if that holds |
| Patterns.PatIdent.VisitPatIdent | macros/src/utils.rs:66-72 | the visitor clears the by-reference and mutability marks and the subpattern of an identifier |
| Patterns.Renamed | macros/src/utils.rs:66-83 | a cleared pattern read as an expression gives back the bound value if and only if it has no wildcard and nothing bound by reference |
| Patterns.ArgsForwarded | macros/src/utils.rs:74-83 | the forwarded arguments are the received ones, in order, if and only if all parameters are such patterns |
| Patterns.ClearedArgsForwarded | macros/src/dyn_trait.rs:217-218 | with the parameters cleared as well, if and only if there is no wildcard |
| DynObjectMacro.ReceiverAgrees | macros/src/dyn_object.rs:242-253 | an entry passes the receiver the method declares, except for `Pin<&Self>` |
| DynObjectMacro.TypeAgrees | macros/src/dyn_object.rs:255-264 | a type is the same where the entry is built and where it is called if and only if `Self` occurs only as `Self::A` |
| DynObjectMacro.TransmuteAgrees | macros/src/dyn_object.rs:266-301 | so are the function-pointer types of an entry and of its call, lifetimes aside |
| Syntax.DispatchableIff | macros/src/utils.rs:30-36 | a method is dispatchable if and only if it takes `self` by reference or pinned reference and is generic in lifetimes only |
| DynObjectMacro.ErrorIff | macros/src/dyn_object.rs:40-59 | there is no error if and only if all methods are such and all types are without parameters; otherwise it is about the first item that is not |
| DynObjectMacro.DynObject.ParseItems | macros/src/dyn_object.rs:40-59 | the loop accepts exactly the traits of such methods and types and then has collected all of them and nothing else, or reports the first item that is not supported |
| DynObjectMacro.DispatchReaches | macros/src/dyn_object.rs:185-228 | a call through the generated `impl` and the vtable reaches the entry and the method of the same name with its declared receiver and the same arguments in order, if and only if the parameters are nameable, the receiver is not `Pin<&Self>`, and the function-pointer types of entry and call agree |
| ObjectCalls.EntriesMatch | macros/src/dyn_object.rs:95-103 | at each position the vtable of the machine has the entry the macro emits, for its type, storage and receiver |
| ObjectCalls.Reached | macros/src/dyn_object.rs:212-228 | calls by name come to calls of the entries at the positions of the methods named |
| ObjectCalls.DispatchRuns | macros/src/dyn_object.rs:185-228 | every sequence of calls by name on a `DynObject` of any storage gives the results and leaves the value of calling the concrete methods, and changes nothing else |
| ObjectCalls.CallByName | macros/src/dyn_object.rs:185-228 | the same on the machine, through the vtable and the bytes of the storage, the stored value keeping its address |
| DynMethod.AsyncIsFuture | macros/src/dyn_trait.rs:219-227 | an async method becomes one that returns a future whose `future_output` is the declared return type |
| DynMethod.FutureOutputIff | macros/src/utils.rs:52-64 | `future_output` is the first `Output` of the first bound named `Future` |
| DynMethod.RewrittenIff | macros/src/dyn_trait.rs:209-240 | exactly the methods with an opaque return type are rewritten; every method keeps its name, parameters, generics and bounds until then |
| DynMethod.CapturedLifetimes.constructor | macros/src/dyn_trait.rs:357-374 | with a `use<..>` a lifetime is captured if and only if the first one lists it, without any if and only if it is a lifetime parameter or `'_` |
| DynMethod.MethodSig.ClearPatterns | macros/src/dyn_trait.rs:217-218 | every parameter pattern is cleared in place, types and receivers kept |
| DynMethod.MethodSig.UpdateDynSignature | macros/src/dyn_trait.rs:242-269 | the signature rewritten in place is the one the soundness and completeness results are about |
| DynMethod.MethodSig.New | macros/src/dyn_trait.rs:209-240 | the three steps on a method give its generated signature and its opaque bounds |
| DynTraitMacro.ParseMethodAttrs | macros/src/dyn_trait.rs:173-197 | the last `storage`, whether there is a `maybe_sync`, or the first error |
| DynTraitMacro.DynTrait.ParseMethod | macros/src/dyn_trait.rs:146-163 | what is pushed for a method, or the error that abandons the expansion: one generated method of that name whose body returns what its output says, the storage that the output names being the parameter pushed |
| DynTraitMacro.DynTrait.ParseItems | macros/src/dyn_trait.rs:69-80 | the loop yields the expansion or the first error; the generated trait and its implementation have exactly the types without parameters and `where` clause and the methods that a vtable entry can be made for, in order, with bodies and storages that fit their outputs |
| DynTraitMacro.DynTraitImpl | macros/src/dyn_trait.rs:55-80 | an attribute without a list is refused, and so are generic parameters together with a `dyn_object` attribute; otherwise the expansion, with just those types and methods |
| DynTraitLaws.AcceptedIff | macros/src/dyn_trait.rs:173-197 | a trait is accepted if and only if attributes stand on methods with an opaque return type, are known, and `maybe_sync` is on a future with an output |
| DynTraitLaws.FirstRefused | macros/src/dyn_trait.rs:173-197 | otherwise the error is about the first method whose attributes are not so, and says which way |
| DynTraitLaws.StoragePath | macros/src/dyn_trait.rs:271-279 | the storage parameter of a method has the last storage asked for as its default, and there is one exactly for opaque methods |
| DynTraitLaws.StillDispatchable | macros/src/utils.rs:30-36 | the generated method of a dispatchable method is dispatchable |
| DynTraitLaws.BareRewrite | macros/src/dyn_trait.rs:376-402 | rewriting the lifetimes of a type neither adds nor removes a `Self` |
| DynTraitLaws.SelfKept | macros/src/dyn_trait.rs:209-269 | a generated signature, with `maybe_sync` or without, names `Self` outside its receiver if and only if the original does |
| DynTraitLaws.Corresponds | macros/src/dyn_trait.rs:138-163 | what the loop adds, item by item, and when it keeps the trait dyn-compatible |
| DynTraitLaws.ItemLoop | macros/src/dyn_trait.rs:69-81 | the generated trait and its implementation list the same kept names in order with the same signatures, all dispatchable, not async and not opaque, and all dyn-compatible if and only if no kept method names `Self` outside its receiver but as `Self::A`; the items are those that the source carries over, with bodies that fit their outputs; there is one storage per opaque method, which its output names, and two hidden items per `maybe_sync` method, of which the method takes the original inputs and returns the `Output` of the declared future |
| DynTraitRuns.Finds | macros/src/dyn_trait.rs:281-292 | the name of every method a vtable entry can be made for leads to the method generated for it, whose body returns what it declares and names the method, and for `maybe_sync` the constant and the synchronous function, that the macros emit |
| DynTraitRuns.BodyForwards | macros/src/dyn_trait.rs:281-292 | a generated body passes its arguments on unchanged |
| DynTraitRuns.ShortcutBody | macros/src/sync.rs:7-20 | the constant and the function that a generated body looks up exist for decorated methods only, and run the body of the async method |
| DynTraitRuns.FirstPollOf | macros/src/dyn_trait.rs:334-348 | the first poll of the compiled future of an await-free method does what its shortcut does, and later ones panic |
| DynTraitRuns.Wrapped | src/object.rs:40-49 | `DynObject::new` of any value, the objects it owns included, in any storage that accepts it keeps it in a new variable and leaves the others and what was dropped alone |
| DynTraitRuns.Built | src/object.rs:40-49 | a value built from objects in storages of their own is the tree of the original value |
| DynTraitRuns.Driven | src/impls.rs:165-184 | a call of a trait method on that `DynObject` does what it does on the value itself |
| DynTraitRuns.DriveStands | src/lib.rs:138-149 | driving a returned object, a `MaybeSync` included, drives the value it stands for |
| DynTraitRuns.TreeEnds | src/object.rs:106-118 | dropping the tree of a value runs the destructors of the value and of what it owns, in order |
| DynTraitRuns.DropStands | src/object.rs:106-118 | dropping a returned object, an unpolled or finished shortcut included, runs the destructors of the value it stands for and touches no other object |
| DynTraitRuns.CallStands | macros/src/dyn_trait.rs:281-348 | a call of a generated method gives the outcome and state of the original and an object that stands for its value, late polls of inert shortcuts included |
| DynTraitRuns.ShortcutStands | macros/src/dyn_trait.rs:334-348 | a shortcut called and polled at once gives the outcome and state of the original method and its first poll |
| DynTraitRuns.RunsStand | macros/src/dyn_trait.rs:281-348 | every run from related clients ends in related clients, with equal outcomes |
| DynTraitRuns.TranslationPreserves | macros/src/dyn_trait.rs:99-105 | for every accepted trait, implementation and choice of storages, every run of a client that calls, polls, drives and drops gives the same outcomes, the same destructors in the same order and the same final state through the generated trait as through the original |
| DynTraitMachine.DynClient.Wrap | src/object.rs:40-49 | on the machine, the value with the objects it owns is written into the storage and the vtable of its type attached |
| DynTraitMachine.DynClient.DropOne | src/object.rs:106-118 | on the machine, a returned object is dropped through its vtable, and a shortcut has nothing to drop |
| DynTraitMachine.DynClient.Execute | macros/src/dyn_trait.rs:281-348 | on the machine, the generated bodies and the calls through vtables perform the run that is specified |
| DynTraitMachine.DynClient.Preserve | macros/src/dyn_trait.rs:99-105 | on the machine, with returned values in any storages, every run has the outcomes and the final state of the original trait and runs the same destructors in the same order |
| AsyncTypes.AsyncImplLawful | macros/src/sync.rs:7-20 | any plain methods with any arguments, any types of iterators and hand-written futures, and await-free async methods compiled to state machines, decorated or not, each with its own number of argument bytes, form an implementation that the translation preserves |

## Left out

- Panics unwinding out of user code, allocation failure, threads, and the `Send`, `Sync` and `Unpin` implementations.
- Aliasing models and provenance beyond the pointer's block and offset.
- User methods that replace the objects a value owns; they act on the value's plain bytes, and owned objects are used through nested accesses.
- Interior mutability through a shared reference.
- The `Debug` implementations, the message of `const_panic`, and the `Send` copies of the future and iterator vtables, for which one generic vtable stands.
- Parsing, spans, documentation attributes and the emission of tokens: the macros start from syntax trees and end in lists of generated items.
- `to_pascal_case` and `to_uppercase`: generated names are paired with the method's name, so clashes between generated names are not modelled.
- Traits with lifetime parameters: a captured lifetime of the trait gets no bound from the macro, so `Lifetimes` starts from traits without them.
- Generic associated types, const parameters of traits, and qualified paths `<T as Trait>::A`, of which only `Self::A` is modelled.
- Lifetime binders `for<'a>` of function-pointer types, which `DynObjectMacro` erases with the lifetimes.
- Default object lifetimes of `dyn` types, and the outlives bounds that follow from where clauses of named types.
- Lifetimes.CompleteIff: the receiver's lifetime is elided, since with a named one the condition is not necessary; a call counts as taken whatever the returned object's type mentions of the lifetimes chosen again.
- DynTraitRuns.TranslationPreserves: a method with a shortcut is polled when it is called or has an inert body, which is exactly when its polls cannot tell; parameters have no wildcard, since `_` cannot be forwarded; arguments have no destructors.
- AsyncTypes.AsyncImplLawful: the arguments of a compiled async method are bytes, as many as its own parameters take, and its body does not await; a method that awaits is given by a type of its own.
- DynTraitMacro.DynTrait.ParseMethod: nothing is said of the lists after an error, because the expansion is abandoned.
- The syntax visitors recurse on values of tree types; only the lists of a signature and the marks of an identifier pattern are updated in place.
