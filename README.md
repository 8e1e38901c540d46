# lispinc core, modelled in Dafny

lispinc is a small Lisp interpreter written in C. This project models four
parts of it that fit together and proves properties about them:

- **Environments** (`env.c`, module `Environment`, with the `Env` record in
  `Objects`). An environment is a frame of key/value nodes plus a pointer to
  the environment that encloses it. `lookup` searches the frames from the
  innermost outwards. `defineVar` prepends a binding to an environment's own
  frame. `setVar` overwrites the first binding it finds in the nearest frame
  that binds the name. `makeBaseEnv` binds `+ - * / =` to the five integer
  primitives. `Env` is a class: its frame is updated in place, and its
  enclosure is a shared `Env?` reference. A ghost depth makes the chain
  provably acyclic.
- **The reader** (`parse.c`, module `Reader`). `tokenize` is a two-state
  automaton written with `goto`s. It turns a text into a list of
  Open/Close/Symbol tokens. The list ends with one spare, unfilled node
  unless the last character is `)`. `parse` rebuilds a value from that list:
  - it drops the first and last nodes;
  - it reads each Symbol as a number or a name;
  - it delimits each sub-list by matching opens against closes.

  `Tokenize` and `Parse` are methods with the source's loops. Each is proved
  equal to a reference function: `NodeList` (defined from `Lex`) and
  `ParseTree`/`ParseItems`.
- **The continuation stack** (`stack.c`, module `Stack`). A LIFO list with
  three statistics counters, modelled as a class.
- **The printer** (`print.c`, module `Print`). `print_obj`, `print_list` and
  `print_label` become functions that return the text the C code writes
  with `printf`.

Module `RoundTrip` joins the printer and the reader. Take any value built
from non-negative numbers, non-empty alphanumeric names that do not start
with a digit, and lists of such values. Print it, tokenize the text and
parse the tokens: the result is the value itself.

Where the comments and the code disagree, the model follows the code:

- The comment at `env.c:93` calls `div_func` floor division. C's `/`
  truncates toward zero, so `DivFunc` truncates.
- A character such as `+` or `-` is neither a bracket, a space nor
  alphanumeric, so it has no branch of its own in `tokenize`. It falls
  through into the OPEN branch and becomes an Open token. As a result the
  operator names that `makeBaseEnv` binds are never read as Symbols
  (`OperatorOpensList`).

## Model

| member | source | states |
|---|---|---|
| Environment.DivFunc | env.c:92-94 | the quotient is truncated toward zero: the remainder `a - q*b` has the sign of `a` and is smaller than `abs(b)` |
| Environment.TruncationLemma | env.c:92-94 | the sign-adjusted quotient of the absolute values is C's truncated quotient, for all four sign cases |
| Environment.ApplyPrim | env.c:80-101 | applies the five primitives; `/` gives the truncated quotient; `=` gives 1 exactly when the arguments are equal and 0 exactly when they differ |
| Environment.LookupInFrame | env.c:263-274 | DUMMY when no node has the key; otherwise the value of the first node with the key, searching head to tail |
| Environment.FirstIndex | env.c:195-203 | the index of the first node with the key; the frame's length exactly when no node has it |
| Environment.OverwriteFirst | env.c:195-200 | the same length and the same keys; unchanged when nothing binds the name; otherwise only the first match gets the new value and every other node is kept |
| Environment.MakeList | env.c:238-243 | a cell holding `car` followed by `cdr` |
| Environment.MakeFrame | env.c:220-235 | one binding per name, in order; binding `i` pairs name `i` with value `i`; needs at least as many values as names |
| Environment.NearestBinder | env.c:184-208 | the index of the nearest frame of the chain that binds the name: no frame before it binds it, and it does unless it is the chain's length |
| Environment.LookupInEnv | env.c:247-261 | the value from the nearest frame whose own lookup is not DUMMY; DUMMY exactly when every frame gives DUMMY, so a binding to DUMMY counts as not found and a null environment gives DUMMY |
| Objects.Env.constructor | env.c:212-217 | a valid record with the given frame and enclosure |
| Environment.MakeEnv | env.c:212-217 | a fresh environment whose chain of frames is the new frame in front of the enclosure's chain |
| Environment.ExtendEnv | env.c:143-154 | a fresh environment with frame `makeFrame(vars, vals)`, enclosed by `base`; a name the new frame does not bind looks up as in `base`; a name it binds first at position `i` looks up as value `i` unless that value is DUMMY |
| Environment.MakeBaseEnv | env.c:118-140 | a fresh environment with no enclosure whose frame binds `+ - * / =` in that order to add, sub, mul, div and eq |
| Environment.DefineVar | env.c:171-181 | the new binding is prepended to the environment's own frame and the older nodes stay; the enclosing frames are unchanged; the name then looks up as the new value (falling through when that value is DUMMY) |
| Environment.DefineThroughChild | env.c:171-181 | a child holds the parent record itself: after `defineVar` on the parent, a name the child's frame does not bind looks up through the child as the new value (a value other than DUMMY; a DUMMY binding would make lookup skip the parent) |
| Environment.SetVar | env.c:184-208 | reports "unbound" exactly when no frame of the chain binds the name; the chain's new frames are the old ones with only the nearest binder's first match overwritten, so nothing changes when unbound; afterwards the name looks up as the new value unless that value is DUMMY, in which case lookup falls through to the enclosure |
| Environment.SetInScopeHead | env.c:195-200 | when the environment's own frame binds the name, only that frame changes |
| Environment.SetInScopeTail | env.c:201-207 | a frame that does not bind the name is passed over unchanged and the update applies to the enclosing chain |
| Stack.ContinuationStack.constructor | stack.c:3-9 | the static initial state: empty stack, counters zero, consistent |
| Stack.ContinuationStack.ResetStats | stack.c:11-15 | the three counters become zero; the contents are unchanged |
| Stack.ContinuationStack.Save | stack.c:19-32 | `reg` goes on top; the save count and the depth grow by one; the maximum depth becomes the larger of the old maximum and the new depth; consistency of the counters is preserved |
| Stack.ContinuationStack.Restore | stack.c:34-43 | on a non-empty stack, returns and removes the top; the depth drops by one; the other counters are unchanged; consistency is preserved |
| Stack.ContinuationStack.ClearStack | stack.c:49-57 | the stack becomes empty; all three counters are unchanged |
| Stack.ContinuationStack.InitializeStack | stack.c:59-63 | the stack becomes empty; all three counters are unchanged |
| Stack.SaveRestoreOrder | stack.c:19-43 | on a fresh stack, `save(a); save(b)` and two restores give `b` then `a`, leaving two saves, depth 0 and maximum depth 2 |
| Stack.SaveThenRestore | stack.c:19-43 | `save(x)` then `restore` gives back `x` and leaves the contents and the depth as they were |
| Print.NatToString | print.c:104-106 | what `%d` prints for a natural number: non-empty, digits only, with no leading zero |
| Print.IntNumeral | print.c:104-106 | what `%d` prints for any int: for `n >= 0`, digits only with no leading zero whose decimal value is `n`; for `n < 0`, a `-` followed by such digits whose value is `-n` |
| Print.PrintLabel | print.c:145-177 | each label prints as its name followed by a space; unknown labels print "UNKNOWN LABEL " |
| Print.PrintObj | print.c:102-134 | every printing is non-empty and ends in a space or in the `)` that closes a list, so printings never run into one another |
| Print.PrintList | print.c:136-143 | the printing of a list's elements always ends in `)` |
| RoundTrip.PrintListIsElements | print.c:136-143 | the elements' printings in order, followed by `)` |
| Print.DecimalOfNumeral | print.c:104-106 | reading the printed numeral of `n` as decimal digits gives `n` back |
| RoundTrip.WidthIsLength | print.c:102-143 | the length of a printable value's printing follows its structure: an atom's text plus one, or the elements plus three |
| Reader.RunLengthMaximal | parse.c:137-154 | the symbol run from `i` is alphanumeric throughout, and the character after it is not |
| Reader.LexTokensFit | parse.c:103-154 | each Open or Close token is one character wide and sits on its character; each Symbol's text is exactly its slice of the input, alphanumeric and maximal, ending at the terminating character or at the end of the input |
| Reader.LexOrdered | parse.c:63-165 | the tokens appear in text order and do not overlap, so their start offsets strictly increase |
| Reader.LexCovers | parse.c:82-165 | every character that is not a space or a newline lies inside some token |
| Reader.LexRun | parse.c:137-154 | a maximal alphanumeric run is exactly one Symbol token |
| Reader.LexSkip | parse.c:131-135 | a space or a newline produces no token |
| Reader.LexBracket | parse.c:94-129 | `)` produces one Close; `(` and every other character that is neither alphanumeric nor a space nor a newline produce one Open |
| Reader.Tokenize | parse.c:63-165 | the `goto` automaton yields exactly the reference node list: the tokens of `Lex`, followed by one spare node unless the last character is `)`; the list is empty exactly for the empty text |
| Reader.Push | parse.c:262-271 | appends at the end of the list |
| Reader.Dock | parse.c:241-251 | removes the last node; an empty list stays empty |
| Reader.SliceEnds | parse.c:253-259 | drops the first and the last node; a list of at most two nodes becomes empty |
| Reader.Atoi | parse.c:181 | the decimal value of the text's leading run of digits, ignoring what follows it (`12ab` gives 12); for a text of digits only, its decimal value |
| Reader.Atom | parse.c:178-185 | a number exactly when the text starts with a digit, whose value is that of the leading run of digits (what `atoi` reads); otherwise a name with that text |
| Reader.ScanToClose | parse.c:217-228 | the open/close counting loop stops at the node where the closes catch up with the opens; `None` when it would read past the last node or into the spare node |
| Reader.TreeNeverFatal | parse.c:168-172 | parse is fatal exactly on the empty list |
| Reader.Parse | parse.c:168-236 | the recursive, loop-based parse gives exactly the reference reading `ParseTree`, and is fatal exactly on the empty list |
| Reader.EmptyListReads | parse.c:116-129 | `()` tokenizes to an Open and a Close with no spare node and reads as the empty list |
| Reader.OperatorOpensList | parse.c:94-114 | `+` falls through to the OPEN branch, so `(+)` gives two Opens and one Close, and parse reads past the end |
| Reader.TrailingSpaceAfterList | parse.c:123-135 | `() ` leaves the spare node at the end, so slicing drops the spare node but keeps the outer Close, and the scan for that Close's match reads past the last node |
| RoundTrip.LexPrinted | parse.c:63-165 | wherever the printing of a printable value appears in a text, tokenizing from there yields exactly that value's tokens, at their positions |
| RoundTrip.ListMatch | parse.c:217-227 | the scan for the end of a printed list stops at that list's own Close |
| RoundTrip.ItemsRoundTrip | parse.c:197-232 | the tokens of printable elements read back as those elements, in order |
| RoundTrip.TreeRoundTrip | parse.c:168-236 | the tokens of a printable value read back as that value |
| RoundTrip.RoundTrip | print.c:102-143 | parse(tokenize(print_obj(v))) == v for non-negative numbers, alphanumeric names not starting with a digit, and lists of these |
| RoundTrip.ReadBack | parse.c:63-236 | running the `Tokenize` and `Parse` methods on the printing of such a value returns the value |

## Left out

- Memory management is not modelled: `malloc`/`free`, leaks, and the freeing done by `dock` and `slice_ends`. Lists are sequences; `push`, `dock` and `slice_ends` return new sequences instead of rewriting pointers through `List**`/`Token_list**`.
- Reader.Parse: the destructive cut `tail->next = NULL` (parse.c:228-229) is modelled as slicing the sequence.
- The one-byte overflow at parse.c:151-153 (`text[sub_length]` is written past the allocation) is not modelled. A Symbol's text is the exact slice of the input.
- The `text` fields "OPEN" and "CLOSE" of bracket tokens are not modelled. Only a Symbol's text is ever read.
- A read that C leaves undefined becomes `Undefined`: reading an unfilled spare node, or reading past the last node in the scan at parse.c:221-227. `exit(1)` on no tokens becomes `Fatal`, and its message is left out.
- `read_code` (parse.c:49-60) reads a global and prints it; it is I/O and is not modelled.
- Environment.ApplyPrim: C `int` overflow is not modelled. The primitives use unbounded integers, and `/` requires a nonzero divisor.
- Reader.Atoi: overflow is not modelled. It is applied only to texts that start with a digit, as `parse` does.
- `isalnum` is taken in the C locale, as ASCII letters and digits. Characters outside ASCII, and the NUL that ends a C string, are not treated separately.
- `lookup` (env.c:159-165) only unwraps its `Obj` arguments and calls `lookup_in_env`; here that is `LookupInEnv` itself. The other env.c functions also take the name, value and environment unwrapped, not re-tagged as `Obj`.
- Environment.MakeFrame: requires that every variable is a NAME. The C code reads the `name` member without checking the tag.
- Environment.SetVar: the "unbound variable" message (env.c:188-191) is not printed; it is returned as the boolean `unbound`.
- Environment.MakeBaseEnv: does not assign the global `base_env` or record the environment with `append_to_envs`. The global is written by code outside this model, and `append_to_envs` is not part of this model.
- Environment.ExtendEnv: does not call `append_to_envs`, for the same reason.
- FUNC values hold one of the five primitives, not a function pointer.
- The `DEBUG` `printf` tracing in env.c and stack.c is left out.
- Print.PrintObj: the `tag_count` case ("huh?") is not modelled. `Value` has exactly the eight real tags.
- Print.PrintObj: ENV objects print "env " whatever environment they hold. The environment reference is kept only as a value payload.
- The rest of print.c is left out: `print_info`, `print_registers`, `print_stack`, `print_stats`, `print_final_val` and `debug_register` dump evaluator globals that are not part of this model.
- print.h holds only declarations.
- lib.c is left out: it holds the Lisp source text of library functions for the evaluator.
- The evaluator, its registers and its label dispatch are not part of this model; objects.h, registers.h and mem.h are not part of this model either.
- Stack.ContinuationStack.Save: the C `int` counters `save_count`, `curr_stack_depth` and `max_stack_depth` (stack.c:7-9) are unbounded here, so their overflow is not modelled; the same holds for the decrement in `restore` and the zeroing in `reset_stats`.
- Stack.ContinuationStack.Restore: requires a non-empty stack. The C code dereferences the empty list without checking.
