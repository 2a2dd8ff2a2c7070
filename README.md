# A verified model of the ares Nock runtime core

ares is a Nock runtime written in Rust. This project models four parts of it in Dafny and proves properties of the model.

1. The explicit-stack Nock interpreter, from `rust/ares/src/interpreter.rs`:
   - the `interpret` loop over encoded `NockWork` tags;
   - `push_formula`;
   - tree addressing with `slot`, `raw_slot` and `edit`;
   - atom increment with `inc`;
   - the hint hooks `match_pre_hint`, `match_post_hint` and `match_post_hinted`. These hooks back the `%memo` cache.
2. The hash array mapped trie (HAMT), from `rust/ares/src/hamt.rs`:
   - the persistent `Hamt` with `new`, `lookup`, `insert`, `preserve` and its iterator;
   - the in-place `MutHamt`;
   - the bitmap helpers of `Stem`.
3. The hot jet table, from `rust/ares/src/jets/hot.rs`:
   - `Hot::init` and `Hot::lookup`;
   - the chain iterator of `HotMemEntry`.
4. The implemented fragment of the register-machine interpreter, from `rust/ares/src/codegen.rs`:
   - the virtual frame's registers and poison bitmap;
   - the pole instructions `imm`, `mov`, `con`, `hed`, `tal`, `pol` and `poi`;
   - the `brn` and `eqq` bends;
   - `tap_in` and `part_will`.

Nouns are `Atom(nat) | Cell(Noun, Noun)`. Unifying equality is structural equality. A Rust `panic!` or an `Err` is a crash: it appears as `None`, `Crash` or a crash constructor.

The interpreter is modelled in two layers:

- `Interpreter.Eval` is a recursive reference evaluator with a fuel bound.
- `Interpreter.Step` is one pass of the source's loop, over a machine. The machine holds:
  - a work stack of nouns and encoded tags;
  - frames holding locals 1 and 2;
  - the `subject` and `res` registers;
  - the memo cache.

`Interpreter.Interpret` runs that pass in a `while` loop. `InterpreterSim.InterpretAgrees` proves one direction of the agreement: whenever `Eval` returns a value, every large enough step budget makes the loop halt with that value, and whenever `Eval` crashes, every large enough budget makes the loop crash. The converse direction is not proved (see Left out).

The HAMT is modelled on values, since it is persistent and never mutated:

- Stems and leaves carry the number of the stack frame their buffer lives in.
- `Hamt.Lookup` and `Hamt.Insert` are recursive specification functions.
- The source's step loops (`HamtWalk.LookupLoop`, `HamtWalk.InsertLoop`) are proved equal to them.
- `HamtPlaced` states where keys sit in the trie: below slot `c` of a stem at depth `d`, only keys whose mug has chunk `d` equal to `c`. Inserts keep this placement, and they never put a key twice into one leaf. On such a map, lookup and the stored pairs agree, and the source's insert builds the same map as the corrected one unless two keys collide in all six chunks (see Findings).

The key hash `mug_u32` is a function parameter `mug: Noun -> bv32`.

These parts are classes whose methods update their fields:

- `MutHamt`;
- the HAMT iterator;
- the hot chain iterator;
- the codegen virtual frame.

The stems of a `MutHamt` point at one another. The model keeps them in an arena sequence, and a pointer is an index into it.

Module layout, one file per module:

| file | modules |
|---|---|
| nouns.dfy | Nouns |
| axis.dfy | Axis |
| atoms.dfy | Atoms |
| bits32.dfy | Bits32 |
| hamt.dfy | Hamt |
| hamt_facts.dfy | HamtFacts |
| hamt_walk.dfy | HamtWalk |
| hamt_iter.dfy | HamtIter |
| hamt_placed.dfy | HamtPlaced |
| hamt_preserve.dfy | HamtPreserve |
| mut_hamt.dfy | HamtMut |
| interpreter.dfy | Interpreter |
| interpreter_sim.dfy | InterpreterSim |
| nock_laws.dfy | NockLaws |
| hot.dfy | HotJets |
| codegen.dfy | Codegen |

Two facts about the HAMT that the model follows:

- As written, `HamtIterator::next` never yields a pair (see Findings).
- Colliding keys chain in one leaf at depth 5, the sixth level, and the model does the same.

## Model

| member | source | states |
|---|---|---|
| Axis.RawSlot | rust/ares/src/interpreter.rs:528-531 | `raw_slot` gives a subtree exactly when the axis is a direct atom and the axis exists; any other case is the source's panic. |
| Axis.SlotCursor | rust/ares/src/interpreter.rs:532-554 | The bit-by-bit descent of `slot`, from the bit below the top bit down, equals the axis-addressing function `Slot`. A crash occurs exactly when an atom is reached early or the axis is 0. |
| Axis.EditCursor | rust/ares/src/interpreter.rs:556-598 | The descent-then-rebuild loop of `edit` equals the copy-on-write replacement function `Edit`. |
| Axis.SlotBasics | rust/ares/src/interpreter.rs:532-554 | Axis 1 is the whole noun, axes 2 and 3 are the head and tail of a cell, and axis 0 crashes. |
| Axis.EditDefined | rust/ares/src/interpreter.rs:556-598 | `edit` succeeds exactly when `slot` at the same axis succeeds. |
| Axis.SlotEdit | rust/ares/src/interpreter.rs:556-598 | After an edit, the edited axis holds the patch. |
| Axis.EditKeepsOthers | rust/ares/src/interpreter.rs:556-598 | After an edit, every axis that neither contains nor lies inside the edited one reads as before. |
| Axis.SlotThrough | rust/ares/src/interpreter.rs:532-554 | Two nouns that agree at an axis agree at every axis below it. |
| Atoms.AtomNew | rust/ares/src/interpreter.rs:602 | `Atom::new` hands out a well-formed representation of its value. The value is direct up to 2^63-1, otherwise a word buffer with a non-zero top word. |
| Atoms.IncValue | rust/ares/src/interpreter.rs:600-624 | `inc` on a well-formed atom gives a well-formed atom whose value is one more. This covers the direct case, the all-ones case (one word larger) and the first-zero case. |
| Atoms.IncAllOnes | rust/ares/src/interpreter.rs:606-612 | An all-ones bit slice plus one is the slice of zeros followed by a single top bit. |
| Atoms.IncClearBit | rust/ares/src/interpreter.rs:613-620 | Setting the first zero bit and clearing the ones below it adds one. |
| Interpreter.PreHint | rust/ares/src/interpreter.rs:627-674 | A `%memo` hint yields the cache's entry for [subject formula]. Tags other than `%memo` and `%sham` yield nothing. `%sham` goes to the jet dispatch parameter with the jet name at the clue's tail. |
| Interpreter.PostHint | rust/ares/src/interpreter.rs:676-698 | Every tag falls through, `%slog` included, so the body of a dynamic hint always runs. |
| Interpreter.PostHinted | rust/ares/src/interpreter.rs:700-717 | After a `%memo` hint the cache maps [subject formula] to the product and is unchanged at every other key, with the corrected insert (see Left out). Any other tag leaves the cache as it was. |
| Interpreter.WorkRoundTrip | rust/ares/src/interpreter.rs:56-71 | Decoding an encoded work tag gives the tag back (`noun_to_work` after `work_to_noun`). |
| Interpreter.Interpret | rust/ares/src/interpreter.rs:73-361 | `interpret` runs passes of the loop from the initial state: a frame, the `Done` sentinel, an empty cache and the formula pushed. It stops at `Done`, at a crash, or after the step budget. |
| Interpreter.Drive | rust/ares/src/interpreter.rs:86-358 | The `while` loop performs exactly `budget` passes of the pass function, or stops earlier at a halt or crash. |
| InterpreterSim.Sim | rust/ares/src/interpreter.rs:363-524 | After `push_formula`, running the loop consumes the pushed work and restores the subject and frames. It leaves `Eval`'s product in `res` and `Eval`'s cache, or crashes when `Eval` crashes. |
| InterpreterSim.RunAgrees | rust/ares/src/interpreter.rs:73-361 | For any pass that behaves like the loop: if `Eval` succeeds, every large enough budget halts with `Eval`'s result; if `Eval` crashes, every large enough budget crashes. |
| InterpreterSim.InterpretAgrees | rust/ares/src/interpreter.rs:73-361 | The same statement for the loop of `interpret` itself. |
| NockLaws.EvalMono | rust/ares/src/interpreter.rs:73-361 | A result reached with some fuel is the result with any larger fuel. The step bound is only a bound. |
| NockLaws.CrashCases | rust/ares/src/interpreter.rs:363-524 | A crash occurs for an atom formula, for an opcode above 11, and for an atom argument to opcodes 2, 5, 7, 8, 9 and 11. |
| NockLaws.Autocons | rust/ares/src/interpreter.rs:98-115 | A cell-of-cells formula succeeds exactly when both halves succeed, in order, and gives the cell of their products. |
| NockLaws.Nock3 | rust/ares/src/interpreter.rs:152-164 | Nock 3 gives 0 exactly for a cell and 1 exactly for an atom. |
| NockLaws.Nock5 | rust/ares/src/interpreter.rs:178-199 | Nock 5 gives 0 exactly when the two products are equal and 1 exactly when they differ. A crash in the first operand is passed on. |
| NockLaws.Nock6 | rust/ares/src/interpreter.rs:200-229 | Nock 6 takes the first branch on 0 and the second on 1 whatever the other branch is, and crashes on any other test value. |
| NockLaws.Nock9 | rust/ares/src/interpreter.rs:267-288 | Nock 9 evaluates the arm at the given axis of the core, with the core as the subject. |
| NockLaws.StaticHint | rust/ares/src/interpreter.rs:496-512 | A hint whose head is an atom is ignored: the result is the body's. |
| NockLaws.UnknownHint | rust/ares/src/interpreter.rs:315-356 | A dynamic hint with an unrecognised tag computes the clue, then gives the body's result. A crash in the clue is passed on. |
| NockLaws.MemoHit | rust/ares/src/interpreter.rs:315-330 | A `%memo` hint whose key is cached returns the cached value without running anything, and leaves the cache unchanged. |
| NockLaws.MemoStores | rust/ares/src/interpreter.rs:331-356 | On a cache miss, a `%memo` hint returns the body's product. The new cache maps [subject formula] to that product and agrees with the body's cache elsewhere, with the corrected insert (see Left out). |
| NockLaws.MemoRepeat | rust/ares/src/interpreter.rs:315-356 | Running a `%memo`-hinted formula again with the cache it produced returns the identical outcome, with the corrected insert (see Left out). |
| Bits32.ToBitBit | rust/ares/src/hamt.rs:13-15 | `chunk_to_bit(c)` has bit `c` set and no other. |
| Bits32.MaskBit | rust/ares/src/hamt.rs:18-21 | `chunk_to_mask(c)` has exactly the bits below `c` set. |
| Bits32.HasIndexBit | rust/ares/src/hamt.rs:185-188 | `has_index` holds exactly when bit `c` of the bitmap is set. |
| Bits32.IndexIsCount | rust/ares/src/hamt.rs:190-193 | `hypothetical_index`, the popcount of the masked bitmap, is the number of occupied slots below `c`. |
| Bits32.Index | rust/ares/src/hamt.rs:195-202 | `index` is defined exactly for occupied slots, and then is the hypothetical index, inside the buffer of `size()` entries. |
| Bits32.IndexOrdered | rust/ares/src/hamt.rs:190-193 | Occupied slots are stored in chunk order. |
| Bits32.IndexOnto | rust/ares/src/hamt.rs:180-193 | Every buffer position below the size holds some occupied slot. |
| Bits32.PopCountPlusOne | rust/ares/src/hamt.rs:180-183 | Filling an empty slot grows `size()` by one. |
| Hamt.EntryAt | rust/ares/src/hamt.rs:204-217 | `Stem::entry` is defined exactly for occupied slots. It gives the stored entry and its index, tagged as a stem exactly when the typemap bit is set. |
| Hamt.FindKey | rust/ares/src/hamt.rs:293-300 | The leaf scan finds the first live pair with the key, or reports that none has it. |
| Hamt.Empty | rust/ares/src/hamt.rs:266-278 | `Hamt::new` is a well-shaped stem with an empty bitmap. |
| Hamt.LookupEmpty | rust/ares/src/hamt.rs:266-307 | Looking anything up in the empty map finds nothing. |
| Hamt.Insert | rust/ares/src/hamt.rs:309-429 | An insert, with the leaf length bumped at depth 5, keeps the trie well shaped. |
| Hamt.InsertAtSlot | rust/ares/src/hamt.rs:342-427 | Inserting through an occupied slot keeps the bitmap and size and rewrites only that slot's entry. |
| HamtFacts.LookupInsert | rust/ares/src/hamt.rs:280-429 | After an insert, the key maps to the new value and every other key maps to what it did before. |
| HamtFacts.InsertOtherSlot | rust/ares/src/hamt.rs:309-429 | An insert leaves every other slot of the stem it passes through unchanged. These are shared, not copied. |
| HamtFacts.InsertEmptyShape | rust/ares/src/hamt.rs:319-341 | Inserting into an empty slot sets its bitmap bit, clears its typemap bit, and splices a one-pair leaf into the buffer at the hypothetical index. Entries before it stay and entries after it move up by one. |
| HamtFacts.ReinsertShape | rust/ares/src/hamt.rs:355-378 | Re-inserting a key that is present keeps both bitmaps and the leaf's length, and rewrites the pair in place. |
| HamtFacts.DepthBound | rust/ares/src/hamt.rs:309-429 | Any chain of stems below the root is at most five levels deep and well shaped at its depth. |
| HamtFacts.AsWrittenLosesKey | rust/ares/src/hamt.rs:379-395 | With all keys colliding, inserting a second key as written leaves that key unreachable. |
| HamtFacts.ChainedKeyFound | rust/ares/src/hamt.rs:379-395 | With the corrected length, the same second key is found. |
| HamtWalk.ScanLeaf | rust/ares/src/hamt.rs:293-300 | The leaf scan loop finds the first live pair with the key, as `FindKey`. |
| HamtWalk.LookupLoop | rust/ares/src/hamt.rs:280-307 | The chunk-by-chunk lookup loop computes `Lookup`. |
| HamtWalk.NextChunk | rust/ares/src/hamt.rs:284-285 | `mug & 0x1f` and `mug >> 5` give the next level's chunk and the remaining bits. |
| HamtWalk.InsertLoop | rust/ares/src/hamt.rs:309-429 | The insert loop, writing each fresh stem copy into its parent's copied buffer, computes the recursive insert. This holds for both the as-written and the corrected length. |
| HamtWalk.InsertRound | rust/ares/src/hamt.rs:314-427 | One round of the insert loop either finishes with the copy or descends, with the copy of its stem linked to the copy of the next. |
| HamtIter.PairsEmpty | rust/ares/src/hamt.rs:266-278 | The empty map has no pairs to iterate. |
| HamtIter.LookupStored | rust/ares/src/hamt.rs:280-307 | Every pair a lookup finds is among the pairs stored in the trie. |
| HamtPlaced.PlacedEmpty | rust/ares/src/hamt.rs:266-272 | `Hamt::new` holds every key where its mug's chunks lead. |
| HamtPlaced.PlacedInsert | rust/ares/src/hamt.rs:309-429 | Both the corrected insert and the insert as written keep every key on its mug's path, including the pushed-down leaf of a split and the chained pairs at depth 5. |
| HamtPlaced.DistinctEmpty | rust/ares/src/hamt.rs:266-272 | `Hamt::new` holds no leaf with a repeated key. |
| HamtPlaced.DistinctInsert | rust/ares/src/hamt.rs:309-429 | Both inserts keep every leaf free of repeated keys: a key found in its leaf has its value rewritten in place, and an absent key is added once, by chaining at depth 5 or by pushing the old leaf down. |
| HamtPlaced.DistinctFromPairs | rust/ares/src/hamt.rs:564-641 | When the pairs the iterator walks have distinct keys, so does every leaf. |
| HamtPlaced.LookupIffStored | rust/ares/src/hamt.rs:280-307 | On a placed map with no repeated key in any leaf, lookup finds `v` under `k` exactly when the pair is stored, that is, exactly when the iterator would yield it. Every map built by inserts from `Hamt::new` qualifies (`PlacedEmpty`, `PlacedInsert`, `DistinctEmpty`, `DistinctInsert`). |
| HamtPlaced.AsWrittenAgrees | rust/ares/src/hamt.rs:379-395 | On a placed map where no stored key other than `k` shares all six mug chunks (the low 30 bits) with `k`, `Hamt::insert` as written builds exactly the map the corrected insert builds. |
| HamtIter.HamtIterator.constructor | rust/ares/src/hamt.rs:622-641 | `into_iter` starts with all the map's pairs remaining. |
| HamtIter.HamtIterator.Next | rust/ares/src/hamt.rs:576-619 | Corrected `next` yields the first remaining pair and removes it, or yields nothing when no pairs remain. |
| HamtIter.AsWrittenYieldsNothing | rust/ares/src/hamt.rs:597-617 | `next` as written never yields a pair from a fresh iterator: its inner loop has no exit once it takes a child. |
| HamtIter.OneKeyOverflows | rust/ares/src/hamt.rs:597-617 | In a map with one key, `next` as written reaches a shift by 32 once the bitmap is empty. |
| HamtIter.TopKeyOverflows | rust/ares/src/hamt.rs:601-602 | For a key in slot 31, the first child taken shifts a `u32` by `31 + 1`. |
| HamtPreserve.Preserve | rust/ares/src/hamt.rs:483-561 | The stack-driven copy loop computes `PreserveStem`: every buffer in the current frame is moved to the previous frame. |
| HamtPreserve.PreserveShaped | rust/ares/src/hamt.rs:483-561 | Preserving keeps the trie well shaped. |
| HamtPreserve.PreserveLookup | rust/ares/src/hamt.rs:483-561 | Preserving changes no lookup. |
| HamtPreserve.PreservePairs | rust/ares/src/hamt.rs:483-561 | Preserving changes no stored pair. |
| HamtPreserve.PreserveEvacuates | rust/ares/src/hamt.rs:483-561 | A map that lives in frames up to `cur` lives only in frames up to `cur - 1` afterwards. Nothing points into the popped frame. |
| HamtPreserve.InsertNested | rust/ares/src/hamt.rs:309-429 | An insert allocating in frame `f` into a map living in frames up to `f` gives such a map. |
| HamtMut.MutHamt.constructor | rust/ares/src/hamt.rs:61-68 | `MutHamt::new` maps every key to nothing. |
| HamtMut.MutHamt.Lookup | rust/ares/src/hamt.rs:70-95 | The lookup loop returns the map's current value for the key. |
| HamtMut.MutHamt.Insert | rust/ares/src/hamt.rs:97-160 | After an insert in place, the key maps to the new value and every other key to its old value. The arena invariant is kept. |
| HamtMut.FindNew | rust/ares/src/hamt.rs:61-68 | A fresh arena holds nothing. |
| HamtMut.EntryOf | rust/ares/src/hamt.rs:37-55 | `MutStem::entry` is defined exactly when the bitmap bit is set, and then reads the slot indexed by the chunk. |
| HotJets.EncodePath | rust/ares/src/jets/hot.rs:788-807 | Building the path noun succeeds exactly when every versioned element fits a direct atom. It then gives `PathNoun`. |
| HotJets.PathNoun | rust/ares/src/jets/hot.rs:788-807 | The path noun is a null-terminated list of the element nouns in reverse order. |
| HotJets.Init | rust/ares/src/jets/hot.rs:782-825 | `init` succeeds exactly when every path element and axis fits a direct atom. The table then maps each path to the chain of its rows, newest first (with the corrected insert; see Left out), is well shaped, and lives in the caller's frames only (it was preserved out of the frame `init` pushed). |
| HotJets.ChainIter.Next | rust/ares/src/jets/hot.rs:838-850 | The chain iterator yields the head node's (axis, jet) and moves to its next node. At the null pointer it yields nothing. |
| HotJets.Lookup | rust/ares/src/jets/hot.rs:827-835 | `lookup` returns the jet of the first chain node whose axis matches, under the path's chain. |
| HotJets.LastEntryWins | rust/ares/src/jets/hot.rs:782-835 | When several rows share a path and axis, the last one registered is the one found. |
| HotJets.NoEntryNone | rust/ares/src/jets/hot.rs:782-835 | With no row for the path and axis, nothing is found. |
| HotJets.FirstJetFirst | rust/ares/src/jets/hot.rs:827-835 | The chain search finds the earliest node with the axis, and nothing exactly when no node has it. |
| HotJets.RegisteredRows | rust/ares/src/jets/hot.rs:782-825 | The chain under a path lists that path's rows in reverse registration order. |
| Codegen.PoisSz | rust/ares/src/codegen.rs:131 | `pois_sz` is the least number of 64-bit words covering `sans` bits. |
| Codegen.OffsetOf | rust/ares/src/codegen.rs:560-572 | The bit offset of a local is `local % 64`. |
| Codegen.SetPoison | rust/ares/src/codegen.rs:560-565 | Poisoning a local rewrites only that local's word. |
| Codegen.SetPoisonExact | rust/ares/src/codegen.rs:560-572 | After `poison_set(local)`, a local is poisoned exactly when it was before or it is `local`. |
| Codegen.VirtualFrame.constructor | rust/ares/src/codegen.rs:131-147 | The frame holds `pois_sz` poison words and `sans` registers with the given contents. |
| Codegen.VirtualFrame.RegisterSet | rust/ares/src/codegen.rs:544-550 | `register_set` writes one register and leaves the other registers and the poison bits alone. |
| Codegen.VirtualFrame.RegisterGet | rust/ares/src/codegen.rs:552-558 | `register_get` reads the register. |
| Codegen.VirtualFrame.PoisonSet | rust/ares/src/codegen.rs:560-565 | `poison_set` updates the poison words as `SetPoison` and leaves the registers alone. |
| Codegen.VirtualFrame.PoisonGet | rust/ares/src/codegen.rs:567-572 | `poison_get` tells whether the local is poisoned. |
| Codegen.VirtualFrame.ExecPole | rust/ares/src/codegen.rs:173-316 | Executing a pole in place gives the registers and poison words that `Apply` gives. |
| Codegen.VirtualFrame.RunBody | rust/ares/src/codegen.rs:168-316 | The body loop runs the poles in order until the body is 0, as `RunPoles`. It stops at a malformed or unknown pole (a crash) or at a pole the model does not run. |
| Codegen.VirtualFrame.ExecBend | rust/ares/src/codegen.rs:364-413 | A bend continues with the blob the chosen label names in `will`, split into body and bend. A missing label or blob crashes, and so does a tag the source does not know. |
| Codegen.UnknownPoleCrashes | rust/ares/src/codegen.rs:332-334 | A pole whose tag the loop does not dispatch on crashes the body, as the source's `panic!` does. |
| Codegen.UnknownBendCrashes | rust/ares/src/codegen.rs:534-536 | A bend whose tag the loop does not dispatch on crashes, as the source's `panic!` does. |
| Codegen.DirectAt | rust/ares/src/codegen.rs:173-316 | `slot(n, a)?.as_direct()?` succeeds exactly for a direct atom at the axis. |
| Codegen.PoisonOnlyGrows | rust/ares/src/codegen.rs:173-316 | No pole clears a poison bit. `imm`, `mov`, `con`, and `hed`/`tal` of a cell leave the poison words unchanged. |
| Codegen.ProjectAtomPoisons | rust/ares/src/codegen.rs:198-223 | `hed` or `tal` of an atom changes no register and poisons exactly the source local. |
| Codegen.PoisonMoves | rust/ares/src/codegen.rs:306-316 | `pol` poisons the destination exactly when the source is poisoned. `poi` poisons exactly its local. Neither changes a register. |
| Codegen.ConThenProject | rust/ares/src/codegen.rs:186-223 | `hed`/`tal` of the cell `con` built copy the original head and tail registers and poison nothing. |
| Codegen.RunPolesPoisonGrows | rust/ares/src/codegen.rs:168-316 | A whole body never clears a poison bit. |
| Codegen.BrnChoice | rust/ares/src/codegen.rs:389-413 | `brn` goes to axis 14 on 0 and to axis 15 on 1. Any jump it makes is one of these. |
| Codegen.EqqChoice | rust/ares/src/codegen.rs:364-388 | `eqq` goes to axis 30 when the registers hold the same direct atom and to axis 31 when they differ. |
| Codegen.PreOrderNodes | rust/ares/src/codegen.rs:609-635 | The pre-order of a [node [l r]] tree lists every node exactly once. |
| Codegen.OntoReverses | rust/ares/src/codegen.rs:609-635 | Consing a sequence onto a list gives the reversed sequence followed by the list. |
| Codegen.TapIn | rust/ares/src/codegen.rs:609-635 | The stack loop of `tap_in` conses the tree's nodes in pre-order onto `b`, or crashes on a malformed subtree. |
| Codegen.Tap | rust/ares/src/codegen.rs:605-607 | `tap` flattens the tree at axis 30 of the map onto 0. It crashes when that axis is missing. |
| Codegen.TapLists | rust/ares/src/codegen.rs:605-635 | `tap` yields a list holding the tree's nodes in reverse pre-order: a permutation of its nodes. |
| Codegen.InsertLast | rust/ares/src/codegen.rs:651-662 | Inserting the pairs in order with the corrected insert gives a map in which each key holds its last value (see Left out). |
| Codegen.PartWill | rust/ares/src/codegen.rs:651-662 | `part_will` succeeds exactly when the flattened tree is a list of pairs. The map then gives each key its last value in that list, with the corrected insert (see Left out). |

## Left out

- I/O. `%slog` printing, the `newt` channel and the jet test-mode comparison and `eprintln!` of `%sham` are not modelled. `%sham` jet dispatch is a parameter `sham` of the environment; a failing jet is `None`.
- `Preserve for Hamt` also preserves the key and value nouns of every leaf it copies. Nouns are values here, so that step is the identity.
- `mug_u32` is a parameter `mug`. Key equality is structural (`unifying_equality` only rewrites pointers).
- NockStack is modelled partly. Frame push/pop, `pre_copy` and the preserve of `res` and the cache on every frame pop are identities. The cache's buffers are tagged with one constant frame (`CACHE_FRAME`).
- Interpreter.Interpret: the loop itself may not terminate. The model runs it for a step budget, and `Eval` has a fuel bound; `NockLaws.EvalMono` says the bound never changes a reached result.
- InterpreterSim.InterpretAgrees: only the direction from `Eval` to the loop is proved. That a halt or crash of the loop at some budget implies `Eval` ends the same way at some fuel is not proved. Nothing is said about formulas on which `Eval` runs out of every fuel.
- Interpreter.PostHinted: the `%memo` store uses the corrected insert. The source's `cache.insert` (interpreter.rs:712) is `Hamt::insert` as written. `HamtPlaced.AsWrittenAgrees` shows the two build the same cache unless a different key already in the cache shares all six mug chunks with [subject formula]. In that case the source's cache loses the new entry (Findings, first row).
- NockLaws.MemoStores: stated for the corrected insert, for the reason given for `Interpreter.PostHinted`.
- NockLaws.MemoRepeat: stated for the corrected insert, for the reason given for `Interpreter.PostHinted`. With the source's insert, a re-run after a colliding store misses the cache and computes the product again.
- HotJets.Init: the table is built with the corrected insert. The source's `init` calls `Hamt::insert` as written. By `HamtPlaced.AsWrittenAgrees` the two agree unless two registered paths have different path nouns with the same six mug chunks. The source then loses the later path's chain.
- Codegen.PartWill: the label map is built with the corrected insert. The source's `part_will` calls `Hamt::insert` as written. By `HamtPlaced.AsWrittenAgrees` the two agree unless two different labels share all six mug chunks. The source then loses the later label's blob.
- Codegen.InsertLast: stated for the corrected insert, for the reason given for `Codegen.PartWill`.
- Atoms.Inc: the buffer handed out by `IndirectAtom::new_raw_mut_bitslice` is taken to be zero-filled. The allocator is not part of this model.
- `Hot` as `IntoIterator`, `Preserve for Hot` and `Preserve for HotMemEntry` are not modelled. Chain nodes are values, so `HotMem` frames and their relinking are not modelled.
- codegen.rs: `cg_interpret` beyond the parts listed above is not modelled. That covers pile loading, the poles other than `imm`, `mov`, `con`, `hed`, `tal`, `pol` and `poi`, and the bends other than `brn` and `eqq`. Some of these poles are empty in the source (`inc`, `cop`, `lop`, `coc`, `tim`, `tom`, `mem`). Others act: `hci` and `tci` project a cell, `men`, `man`, `slo` and `sld` push and pop the mean and slow stacks, `hit` reads a register for a profiling counter that is not yet written (`XX`), `slg` prints, `mew` writes the cache, and `ipb` walks a register list. The bends left out are `clq`, `hop`, `lnk`, `cal`, `caf`, `lnt`, `jmp`, `jmf`, `spy`, `mer`, `don` and `bom`. All of these tags decode to an `Unmodelled` tag and end the run there. A tag the source does not dispatch on reaches its `panic!`, and the model crashes there.
- Codegen.VirtualFrame.ExecBend: `brn` on a register holding neither 0 nor 1 has no crash in the source (`XX crash`). It is modelled as `Spin`: the loop would run the same bend again. `raw_equals` is a parameter `rawEq`. `ExecBend` assumes nothing about it. `Codegen.RawEqSound` assumes it implies equality for all nouns and holds on equal direct atoms; only `Codegen.EqqChoice` uses that.
- Codegen.TapIn: the source's frame is left pushed when a `?` fails mid-loop (an `XX` in the source). The model only reports the crash.
- Codegen.VirtualFrame: `size_of::<Frame>()` offsets and frame memory are not modelled. The frame's poison words and registers are two arrays with the layout proved by `Codegen.FrameLayout`.
- Bounded machine integers: `u64` axes and `u32` mugs are modelled inside their ranges. `usize` register indices are unbounded naturals, checked against `sans`.

## Findings

| source | as written | input that shows it | evidently intended | confidence | as-written member | corrected member |
|---|---|---|---|---|---|---|
| rust/ares/src/hamt.rs:379-395 | At depth 5, a key is added to a collision leaf by copying `len` pairs and writing the new pair at index `len`, but the new leaf keeps `len: leaf.len`. The callers in interpreter.rs (`%memo`), jets/hot.rs (`init`) and codegen.rs (`part_will`) inherit the loss. | With every mug 0, insert key 0 and then key 1. Key 1 is not found. | The new leaf has `len: leaf.len + 1`. | not executed | HamtFacts.AsWrittenLosesKey | HamtFacts.LookupInsert |
| rust/ares/src/hamt.rs:597-617 | The inner `loop` that takes the next child has no `break` or `return`. After a leaf is taken it keeps taking children instead of returning to the leaf check, so no pair is ever yielded. | Any map, for example one key under mug 0. | Leave the inner loop after each child taken and yield from the leaf. | not executed | HamtIter.AsWrittenYieldsNothing | HamtIter.HamtIterator.Next |
| rust/ares/src/hamt.rs:601-602 | `bitmap >> next_child_bit + 1` shifts a `u32` by 32 when the child is slot 31, or when the bitmap is empty (`trailing_zeros` is 32, giving 33). | A single key whose mug's low chunk is 31. | Shift in two steps, `>> tz` then `>> 1`, which empties the word. | not executed | HamtIter.TopKeyOverflows | HamtIter.HamtIterator.Next |
