# smith3 core: operator bookkeeping and the two code emitters

smith3 derives many-body equations symbolically and writes C++ code that
evaluates them. This project models three pieces of that program and proves
properties about them.

- **Operator slot bookkeeping.** A spin-summed second-quantized `Operator` holds:
  - a list of slots `op_`, where each slot is an index handle, an operator-info code and a spin code;
  - a spin vector `rho_`.

  The info code is -1 for a slot that is already contracted, 0 for a live operator, and 2 for an active operator. The model covers:
  - the queries `contracted`, `general`, `num_general` and the four `num_*` counters;
  - the label rule `contractable`;
  - the `rho_` accessors;
  - `first_dagger_noactive`, which returns the first live creation slot and marks it contracted.

  The operator is a class: `op` and `rho` are updated in place, and the index list and the creation flags are fixed at construction.
- **The RDM block-access emitter** (`RDM::generate`). For one reduced density matrix term it writes:
  - the hash-key vector of the block, keys in reverse index order;
  - the `get_block` fetch from `rdm<rank>`;
  - one `for` loop per loop index, each indented two spaces deeper;
  - the accumulation `odata[...] += (factor) * data[...];`, whose two subscripts are Horner linearised offsets;
  - the closing braces, in reverse order.
- **The active-space unit emitter** (`Active::generate` and `RDM::str`). A generator object keeps the number of units written so far. For each unit it writes:
  - the file header and the base-class include, on the first unit only;
  - a class `Active_<count>` whose base gets the storage rank `|index| - |merged index|`;
  - the target list of the indices the merged tensor does not carry;
  - one `for (... != nact_ ...)` loop per index;
  - one line per density-matrix term. A line is an optional `if (...)` delta guard, the `gamma<rank>(...)` call, and an optional product by the merged tensor.

Each emitter method builds its text the way the source appends to its streams: the same loops, counters, separators and stored closers. Each method is proved equal to a specification function of its inputs, and lemmas about those functions state what the emitted code promises. The main ones are:

- balanced brackets;
- each index variable mentioned once, in reverse order;
- one `{` per loop and as many `}`;
- separators between items and never after the last;
- the guard present exactly when there are delta pairs;
- distinct class names for distinct counts.

Files:

| file | module | contents |
|---|---|---|
| `text.dfy` | `Text` | joining, repetition, reversal, decimal rendering of integers, bracket depth |
| `wrappers.dfy` | `Wrappers` | `Option` |
| `symbols.dfy` | `Symbols` | `Index`, `Tensor`, `Rdm`, `Active` as values carrying the text their own helpers render |
| `operator.dfy` | `Operators` | slots, counters, class `Operator` |
| `loop_nest.dfy` | `LoopNest` | loop-nest opening and closing shared by both emitters |
| `horner.dfy` | `Horner` | the Horner subscript, as a nested form and as the emitter writes it |
| `rdm.dfy` | `RdmEmitter` | `RDM::generate` |
| `active_gen.dfy` | `ActiveEmitter` | `RDM::str`, `Active::generate`, class `ActiveGenerator` |

## Model

| member | source | states |
|---|---|---|
| Operators.TallyBound | src/operator.h:95-107 | no counter can exceed the number of slots |
| Operators.TallyPositive | src/operator.h:93-107 | a counter is non-zero exactly when some slot of its kind exists |
| Operators.TallyUpdate | src/operator.h:98-107 | replacing one slot changes each counter only by what the old slot took away and the new slot adds |
| Operators.AllContractedIff | src/operator.h:38-49 | the recursive "all contracted" test holds exactly when every slot has info -1 |
| Operators.ContractedIffNothingLeft | src/operator.h:91-107 | for well-formed info codes, an operator is fully contracted exactly when its daggered, non-daggered and both active counters are all zero |
| Operators.FirstLiveDagger | src/operator.h:127-128 | the position found is a daggered slot with info 0, and no earlier slot is one |
| Operators.MarkContractedCounts | src/operator.h:127-128 | contracting a live daggered slot takes one from the daggered counter, leaves the non-daggered and active counters alone, and takes one from the general counter exactly when the slot's index is general |
| Operators.Operator.Contractable | src/operator.h:135 | true exactly when the two labels are equal or either is "g" |
| Operators.ContractableLaws | src/operator.h:134-135 | contractability is reflexive and symmetric, allows anything against "g", and refuses two distinct labels neither of which is "g" |
| Operators.Operator.constructor | src/operator.h:36-66 | an operator starts from well-formed slots: info in {-1, 0, 2}, spin code in {0, 1} and a position in `rho_`, handles in range |
| Operators.Operator.Contracted | src/operator.h:91-92 | true exactly when every slot has info -1 |
| Operators.Operator.NumGeneral | src/operator.h:95-96 | at most the number of slots; positive exactly when a live slot has an index of the general range |
| Operators.Operator.General | src/operator.h:93-94 | true exactly when a general operator is present, which is when the general count is non-zero |
| Operators.Operator.NumActiveNoDagger | src/operator.h:98-99 | at most the number of slots; positive exactly when some non-daggered slot has info 2 |
| Operators.Operator.NumActiveDagger | src/operator.h:100-101 | at most the number of slots; positive exactly when some daggered slot has info 2 |
| Operators.Operator.NumNoDagger | src/operator.h:104-105 | at most the number of slots; positive exactly when some non-daggered slot has info 0 |
| Operators.Operator.NumDagger | src/operator.h:106-107 | at most the number of slots; positive exactly when some daggered slot has info 0 |
| Operators.Operator.Rho | src/operator.h:115 | returns spin `i` when `i` is in range and fails (None) otherwise, as the bounds-checked `at` does |
| Operators.Operator.SetRho | src/operator.h:111 | afterwards `rho(i)` is the new spin, every other spin and the whole slot list are unchanged, and the slot convention still holds |
| Operators.Operator.FirstDaggerNoActive | src/operator.h:127-128 | with a live daggered slot, it returns the handle and spin of the first one and marks exactly that slot contracted; the returned spin code can be looked up in `rho_`; the daggered count drops by one, the non-daggered and both active counters stay, and the general counter drops by one exactly when the slot's index is general. With none, it fails (None) and changes nothing |
| Text.NatToString | active_gen.cc:53-55 | the decimal text of a count is a non-empty run of digits, one digit exactly below ten |
| Text.NatToStringValue | active_gen.cc:53-55 | read back as a decimal numeral, the text of `n` has the value `n` |
| Text.NatToStringInjective | active_gen.cc:53-55 | different counts render as different text |
| Text.JoinLength | rdm.cc:48-51 | a joined list is its items plus one separator fewer than items |
| Text.JoinCons | active_gen.cc:99-102 | a join is the first item, then one separator and the join of the rest |
| LoopNest.OpenNest | rdm.cc:59-66 | writes one header line per loop in order, loop `k` indented by `2k` extra spaces, and stores the closer of each loop at its header's indentation; returns the innermost body's indentation |
| LoopNest.CloseNest | rdm.cc:114-116 | writes the stored closers last to first, one per line |
| LoopNest.ClosersReversed | active_gen.cc:74-80 | the stored closers, written back to front, are the nest's closing lines |
| LoopNest.OpenIndentation | rdm.cc:61-65 | there is one header per loop, and header `k` stands `2k` spaces deeper than the first |
| LoopNest.ClosePairsWithOpen | active_gen.cc:71-80 | there are as many closing lines as headers, and closing line `j` stands at the indentation of header `n-1-j` |
| LoopNest.CloseBraces | rdm.cc:114-116 | the closing lines hold exactly one `}` per loop and no `{` |
| LoopNest.UnlinesOccurrences | rdm.cc:114-116 | written one per line, lines holding `m` copies of a character give `m` per line in total |
| Horner.OffsetText | rdm.cc:76-90 | the `cnt`/`cntp` loop writes exactly the Horner subscript followed by its terminator, nothing for no indices, and opens `cntp = n - 2` groups for `n >= 2` and none otherwise |
| Horner.StepWritten | rdm.cc:80-84 | each pass before the last index appends that index's Horner step, opening a group except at the second-to-last index |
| Horner.LastText | rdm.cc:85-89 | the last pass writes the last loop variable, closes every open group and writes the terminator |
| Horner.RenderIsLinear | rdm.cc:79-90 | the text written left to right equals the nested Horner form `i0+s0*(i1+s1*(...))` |
| Horner.BuildVars | rdm.cc:79-90 | the nested form mentions every position's loop variable exactly once, in increasing order |
| Horner.BuildStrides | rdm.cc:79-90 | every index but the last contributes its extent exactly once, in order |
| Horner.BuildGroups | rdm.cc:79-90 | a subscript over `n` indices has `n - 2` bracketed groups, and none for one or two |
| Horner.SubscriptMentions | rdm.cc:97-108 | over any non-empty index list, the variables are exactly positions 0..n-1, the extents exactly 0..n-2, and there are `n - 2` groups (none below two) |
| Horner.RenderBalanced | rdm.cc:79-90 | when the index text has no round brackets, every bracket of the subscript closes one opened before it, and all are closed |
| Horner.SubscriptBalanced | rdm.cc:97-108 | a subscript with its terminator is balanced in round brackets, for any number of indices whose text holds none |
| Horner.SubscriptAvoids | rdm.cc:97-108 | the subscript holds no character that neither the index text, the fixed pieces nor the terminator holds |
| RdmEmitter.HashVector | rdm.cc:46-52 | writes the hash-key vector line: every index's `<gen>->key()`, last index first, joined by ", " |
| RdmEmitter.HashOrder | rdm.cc:48-51 | the key list starts with the last index's key; a single index gives no separator, otherwise one ", " precedes the keys of the others |
| RdmEmitter.HashLength | rdm.cc:48-51 | the key list is all keys plus exactly `n - 1` separators, so no separator trails |
| RdmEmitter.Generate | rdm.cc:38-118 | writes exactly: the hash line and the fetch from `rdm<|index|/2>` at the indentation plus two spaces, the loop nest, the accumulation `odata[...]` then `+= (factor) * data[...];` at the innermost indentation, and the closers in reverse |
| RdmEmitter.VariableOrder | rdm.cc:79-90 | the loop variable at subscript position `k` is that of loop index `n-1-k`, and no variable appears twice: each loop index appears once, in reverse loop order |
| RdmEmitter.StrideOrder | rdm.cc:97-108 | the extent at stride position `k` belongs to index `n-1-k`: reverse order, with the first index's extent never used |
| RdmEmitter.TargetBalanced | rdm.cc:78-90 | the `odata[...]` part is balanced in round brackets for every loop list whose index text holds none |
| RdmEmitter.SourceBalanced | rdm.cc:96-108 | the `(factor) * data[...]` part is balanced in round brackets for every index list, when the index text and the factor hold none |
| RdmEmitter.AccumulationBalanced | rdm.cc:112 | the whole accumulation line is balanced when the index text, the factor and the indentation hold no round brackets |
| RdmEmitter.HeaderBraces | rdm.cc:63 | each loop header line holds one `{` and no `}` |
| RdmEmitter.OpenBraces | rdm.cc:61-66 | the loop headers together hold exactly one `{` per loop and no `}` |
| RdmEmitter.PlainLines | rdm.cc:46-112 | the hash line, the fetch line and the accumulation hold no curly braces |
| RdmEmitter.BlockBraces | rdm.cc:61-116 | the whole block holds exactly `|loop|` of `{` and `|loop|` of `}` |
| ActiveEmitter.GuardText | active_gen.cc:96-104 | writes the guard: nothing without delta pairs, otherwise `if (` + the clauses joined by " && " + `) ` |
| ActiveEmitter.GuardIff | active_gen.cc:96-104 | a guard is written exactly when there are delta pairs; it starts with `if (` and ends with `) ` |
| ActiveEmitter.GuardClauses | active_gen.cc:99-102 | the guard tests the first pair first, and each further pair follows one " && " |
| ActiveEmitter.IndexList | active_gen.cc:107-111 | the down-counting `j` loop writes the index names joined by ", ", with no separator after the last |
| ActiveEmitter.RdmStr | active_gen.cc:94-118 | writes the guard, the accumulation into `data(target)` with the prefactor, the `gamma<|index|/2>(...)` call over the index names, and the tail |
| ActiveEmitter.LineEnding | active_gen.cc:112-116 | a term line ends with `);` without a merged tensor, and with `) * ` + the tensor's text with one |
| ActiveEmitter.Find | active_gen.cc:61 | the position found is the first index with that identity, or the end when there is none |
| ActiveEmitter.TargetList | active_gen.cc:59-66 | writes the names of the indices the merged tensor does not carry, a separator before a name whenever text is already written |
| ActiveEmitter.KeptMembers | active_gen.cc:59-66 | an index is in the target list exactly when it is a unit index that the merged tensor does not carry |
| ActiveEmitter.TargetIsJoin | active_gen.cc:59-66 | when no name is empty, the target is exactly the kept names, in unit order, joined by ", " |
| ActiveEmitter.TermText | active_gen.cc:77-79 | writes one line per term, in term order, at the innermost indentation |
| ActiveEmitter.ClassText | active_gen.cc:45-86 | writes exactly the class of unit `count` with storage rank `|index| - |merged index|`: the opening, the target list, the loop nest, the term lines, the closers in reverse, and the destructor |
| ActiveEmitter.ActiveGenerator.constructor | active_gen.cc:41-42 | a new generator has written no unit yet |
| ActiveEmitter.ActiveGenerator.Generate | active_gen.cc:38-90 | returns the unit for the current count (preamble only at count 0), then increments the count by exactly one |
| ActiveEmitter.PreambleOnlyFirst | active_gen.cc:41-51 | the header and `#include "active_base.h"` come before the first unit only; later units are their class alone |
| ActiveEmitter.BodiesDistinct | active_gen.cc:52-55 | classes written at different counts differ, so successive calls never repeat a class |

## Left out

- `operator.h` only declares `contract`, `survive`, `permute`, `refresh_indices` and `mutate_general`. Their definitions, with their sign and factor rules, are outside this model.
- `operator.h` only declares the three `Operator` constructors with parameters. Their definitions are outside this model, so which slots the one-body and two-body constructors lay out is not modelled. The model's constructor takes any well-formed slot list, creation flags and spins. With empty lists it is the default constructor `Operator() { }`, which gives the empty operator.
- `operator.h` does not say which slots count as daggered. Each slot has a creation flag fixed at construction.
- `operator.h` only declares `contracted`, `general` and the `num_*` counters. Their definitions are outside this model, and the model's daggered and non-daggered counters count live (info 0) slots, the active ones count info 2 slots, and the general counter counts live slots whose index has the range label "g".
- Operators.Operator.FirstDaggerNoActive: `first_dagger_noactive` is defined outside this model. It raises a logic error when no live daggered slot exists. The model returns None and leaves the operator unchanged. Its second result is the slot's spin code, a position in `rho_` that every slot keeps in range, standing for the pointer to that `rho_` entry the source returns.
- Operators.Operator.SetRho requires the position to be in range, because the source's unchecked `rho_[i]` has no defined behaviour outside it.
- The `rho()` overload returning the whole vector and the `op()` accessors are plain field access. The model has `rho` and `op` as fields.
- The `rho_ptr(i)` overloads do the same bounds-checked lookup that `Rho` models, but return the entry's address. Aliasing through that pointer is not modelled.
- `print`, `identical`, `copy`, `label` and `is_ex` are pure virtual in the header and have no body.
- `shared_ptr` aliasing and lifetime of `Index` and `Spin` are not modelled. An index handle is a position in the operator's index list, a spin is an integer handle, and an index's identity is its `id`.
- `Index::str`, `str_gen` and `num`, and `Tensor::str`, are defined outside this model. Each index and tensor carries the text these helpers render, as uninterpreted data. The emitter writes `->key()` as literal text after `str_gen()`, so no `key` helper is modelled.
- The numeric formatting of `fac_` (fixed, width 5, two decimals) and of `factor()` is not modelled: double-to-text conversion is outside the model. Both are opaque strings on the RDM term.
- `RDM::rank()` is defined outside this model. It is taken as half the index count, the same rank `RDM::str` writes after `gamma`.
- `RDM::generate`'s `tlab` parameter is never used by the source, so the model has no such parameter.
- `count_` is the file-static counter declared at active_gen.cc:35. Being file-static, it starts at zero. It is modelled as a field of the generator object that the constructor sets to 0.
- ActiveEmitter.ActiveGenerator.Generate: the count is an unbounded natural number, while `count_` is a C++ `int` whose `++count_` overflows past INT_MAX. BodiesDistinct's distinct class names hold in the source only while fewer than INT_MAX units have been written.
- `header` is declared outside this model. It is a constant given at construction.
- `count__` is declared outside this model, and the assignment `count__ = count_` is not modelled.
- prep/generate_main.cc, the driver that wires tensors into equations and prints to standard output, is not part of this model.
- Standard output and stream state are not modelled: each method returns the text it would write.
- RdmEmitter.Generate and ActiveEmitter.ClassText delegate parts of their one stream to helper methods: HashVector, OpenNest, OffsetText, TermText and CloseNest. The text is the same; only the grouping into methods is the model's own.
- For an empty loop list or an empty RDM index list, the model writes what the source writes: the subscript is then left unclosed (`odata[` or `data[` without `]`). The balance lemmas count round brackets only, so they still hold there. The unclosed square bracket is outside what they measure, and no lemma states that square brackets pair up.
