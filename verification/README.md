# Pretty printer for the front-end IR of SYS_ATL

This project models the pretty printer for the untyped front-end IR (`UAST`) of SYS_ATL. The printer turns a procedure, an argument, a statement or an expression into indented, Python-like source lines. It has three parts:

- **The expression renderer (`pexpr`).** It is driven by a static operator-precedence table. A binary operation is parenthesized exactly when its level is below the context level. The left operand is rendered at the operator's own level and the right operand one level above, which makes chains left-associative. Unary minus renders its operand at level 60. Indices and `par` bounds are rendered at level 0.
- **The display-name scheme (`new_name`, `get_name`).**
  - Names live in a stack of scopes.
  - The first binding of a raw name displays it unchanged.
  - A later binding appends `_1` or increments a trailing `_<digits>` counter. The counter is found with the pattern `^(.*)_([0-9]*)$`.
  - A name that was never bound prints as its `repr`.
- **The statement renderer (`pstmts`, `pproc`, `pfnarg`, `push`, `pop`, `addline`).**
  - It emits one line per simple statement and one header line per `if`, `else` or `for`. For `Alloc` the model prints the corrected line `<name> : <type>`; the line as written always raises (see Findings).
  - Bodies are rendered one scope deeper and two spaces further in.
  - The scope stack is threaded through in program order.

The model is functional:

- The printer's mutable fields (scope stack, indentation, lines) become a `Printer` value that every step takes and returns.
- A Python exception becomes an `Err` of `Result`.
- The output is the list of lines.

Modules, in dependency order:

- `Outcomes`: the `Result` and `Option` types, and the two exceptions that can arise (`ValueError`, `AttributeError`).
- `Text`: `str.join`, `str(int)`, `int(str)` on ASCII digits, and trailing digit runs.
- `Syntax`: identifiers, operators and the precedence table, expressions, statements, arguments, procedures, and the four kinds of printable node.
- `Scopes`: the scope stack.
- `Naming`: `new_name` and `get_name`, including the counter pattern.
- `ExprPrinter`: `pexpr`, and the laws about parentheses.
- `ExprTokens`: a token view of `pexpr`'s output and a precedence-climbing reader. It proves that the tokens of a rendered expression read back as the same tree, with identifiers replaced by their display names, for a reader that treats every level, comparisons included, as left-associative.
- `StmtPrinter`: `push`, `pop`, `addline`, `pstmts`, `pfnarg`, `pproc`, and the constructor's dispatch (`Print`).
- `StmtProperties`: the layout, scoping and ordering laws of the statement renderer, and worked examples.
- `LineTexts`: the literal lines of the worked statement examples.

**The scope stack is an assumption.** The `Environment` class comes from a module outside this model (`prelude`), so its behaviour here is assumed:

- it is a stack of frames, each mapping a raw name (`str(nm)`) to a display name;
- a new stack holds one empty frame;
- `in` and lookup search every live frame, innermost first;
- assignment writes the innermost frame;
- `push` opens an empty frame and `pop` drops the innermost one.

**Helpers that stand for Python operations.** These carry no property of their own and have no row:

- `Scopes.Bound` is `k in env`.
- `Scopes.PushFrame` and `Scopes.PopFrame` are the stack's `push` and `pop`.
- `Text.Join` is `sep.join(parts)`.
- `Text.DecimalValue` is `int(d)` on a run of ASCII digits. It gives 0 for the empty run, where `int('')` raises, but the counter step rejects the empty run before using it.
- `ExprPrinter.IndexText` is the `[i,j,...]` suffix `pexpr` prints after a name with indices (`SYS_ATL/LoopIR_pprint.py:182-185`), or nothing when there are none.

**Behaviour worth noting.** The code fixes these details, and the model follows it:

- An indexed `Assign`/`Reduce` target is re-bound like an unindexed one (`SYS_ATL/LoopIR_pprint.py:151-155`).
- `for` binds its loop variable before the `push`, in the enclosing frame. The binding therefore outlives the loop, and a sibling loop over the same name prints the next counter (`StmtProperties.NestedLoopsExample`).
- `par` prints as `par(lo,hi)`, with no space after the comma.
- `-(a + b)` keeps its parentheses.
- Comparisons share one level, so `(a < b) < c` prints as `a < b < c` (`ExprPrinter.ChainedComparisonExample`). Python reads that text as the chained comparison `a < b and b < c`, and `==` behaves the same way.
- Display names are distinct per raw name only. Two different raw names can end up with the same display name (`Naming.DisplayNamesCanCollide`).

## Model

| member | source | states |
|---|---|---|
| Syntax.Prec | SYS_ATL/LoopIR_pprint.py:37-55 | Every operator level is one of 10, 20, 30, 40, 50, and every level is below the unary-minus level 60. |
| Syntax.PrecedenceOrder | SYS_ATL/LoopIR_pprint.py:37-55 | `or` < `and` < comparisons < `+`/`-` < `*`/`/`. Two operators share a level exactly when they are in the same group. |
| Text.NatToDecimal | SYS_ATL/LoopIR_pprint.py:118 | `str(n)` is a non-empty digit string with no leading zero, and it reads back as `n`. |
| Text.NatToDecimalInjective | SYS_ATL/LoopIR_pprint.py:118 | Two numbers have the same numeral exactly when they are equal. |
| Text.TrailingDigits | SYS_ATL/LoopIR_pprint.py:113 | The digit run `[0-9]*` that a greedy `(.*)` leaves at the end: a suffix of digits, with a non-digit before it. |
| Scopes.EmptyEnv | SYS_ATL/LoopIR_pprint.py:75 | A new stack has one frame and binds nothing. |
| Scopes.Lookup | SYS_ATL/LoopIR_pprint.py:112 | `env[k]` is the value in the innermost frame that binds `k`. |
| Scopes.Store | SYS_ATL/LoopIR_pprint.py:109 | `env[k] = v` changes only the innermost frame. Afterwards `k` reads as `v`, and every other name keeps its membership and its value. |
| Scopes.PushKeepsBindings | SYS_ATL/LoopIR_pprint.py:95-97 | `push` changes neither the membership nor the value of any name. |
| Scopes.PopUndoesInnerStore | SYS_ATL/LoopIR_pprint.py:99-100 | A binding made after a `push` is gone after the `pop`: the stack is exactly what it was. |
| Naming.CounterMatch | SYS_ATL/LoopIR_pprint.py:113 | When the counter pattern matches, the name is `<prefix>_<digits>`. The match ignores one final newline, and the prefix has no newline. |
| Naming.NoMatchMeansNoCounter | SYS_ATL/LoopIR_pprint.py:113-116 | When the pattern does not match, no `_` in the name is followed only by digits without a newline before it. |
| Naming.Rebind | SYS_ATL/LoopIR_pprint.py:112-118 | The counter step never returns the name it started from, and it always ends in a digit. `RebindAppends` gives its value when the pattern does not match. `RebindDigitRun` gives it when the pattern matches with a non-empty digit run, with or without one final newline. |
| Naming.RebindAppends | SYS_ATL/LoopIR_pprint.py:113-116 | When the counter pattern does not match, the counter step appends `_1`. |
| Naming.RebindDigitRun | SYS_ATL/LoopIR_pprint.py:113-118 | A name that reads `<a>_<digits>` once one final newline is ignored, with a newline-free `a` and a non-empty digit run, becomes `<a>_<int(digits) + 1>`. Leading zeros are dropped (`x_007` becomes `x_8`), and so is the final newline. |
| Naming.RebindFailsIff | SYS_ATL/LoopIR_pprint.py:113-118 | The counter step raises `ValueError` (`int('')`) exactly when the display name ends in `_`, ignoring one final newline, with no newline before that `_`. |
| Naming.EndsInDigitRebinds | SYS_ATL/LoopIR_pprint.py:116-118 | A name the counter step produced can always be rebound. |
| Naming.RebindIncrements | SYS_ATL/LoopIR_pprint.py:117-118 | `<a>_<n>` with a newline-free `a` becomes `<a>_<n+1>`. |
| Naming.RebindDropsFinalNewline | SYS_ATL/LoopIR_pprint.py:113-118 | `<a>_<n>` followed by one final newline, with a newline-free `a`, becomes `<a>_<n+1>` without the newline: `x_1\n` becomes `x_2`. |
| Naming.NewName | SYS_ATL/LoopIR_pprint.py:106-120 | An unbound name binds to itself. A bound name gets the counter step of its current display name, which differs from it, and fails exactly when the counter step fails. The result is stored in the innermost frame and read back by lookup, and no other name changes. |
| Naming.GetAfterNewName | SYS_ATL/LoopIR_pprint.py:106-127 | After `new_name(x)`, `get_name(x)` returns the name just chosen, and `get_name` of any other raw name is unchanged. |
| Naming.GetName | SYS_ATL/LoopIR_pprint.py:122-127 | `get_name` reads the innermost binding of `str(nm)`, or gives `repr(nm)` when no frame binds it. It only reads the stack. `GetAfterNewName` ties it to `new_name`, and `UnboundNamePrintsRepr` ties it to `pexpr`. |
| Naming.NewNameKeepsOthers | SYS_ATL/LoopIR_pprint.py:106-120 | `new_name(x)` leaves every other raw name as it was, bound or not, with the same display name. |
| Naming.BindRepeatedly | SYS_ATL/LoopIR_pprint.py:106-120 | Calling `new_name` `n` times on a fresh raw name `x` that contains no newline and that the counter pattern does not match never fails. It returns `x`, `x_1`, ..., `x_(n-1)`, which are pairwise distinct. It keeps the depth of the stack and leaves the last name in the innermost frame. |
| Naming.NextBinding | SYS_ATL/LoopIR_pprint.py:106-120 | For a raw name `x` that contains no newline and that the counter pattern does not match: when the innermost frame holds `x_(i-1)`, or `x` is unbound and `i = 0`, the next `new_name(x)` returns `x_i` and leaves it in the innermost frame. |
| Naming.BindAllFirst | SYS_ATL/LoopIR_pprint.py:131-132 | Binding a list of raw names in turn is binding the first and then the rest from the stack it leaves. A failure of the first call is the failure of the whole run. |
| Naming.NewNameNumbered | SYS_ATL/LoopIR_pprint.py:106-120 | For a raw name `x` that contains no newline and that the counter pattern does not match, the binding after `x_(k-1)` is `x_k`, and the first binding is `x`. A raw name like `y_1` is different: it goes to `y_2`, by `RebindIncrements`. |
| Naming.NumberedDistinct | SYS_ATL/LoopIR_pprint.py:116-118 | `x_j` and `x_k` differ for `j < k`. |
| Naming.NumberedNamesDistinct | SYS_ATL/LoopIR_pprint.py:116-118 | Any list `x`, `x_1`, `x_2`, ... has pairwise distinct entries. |
| Naming.DisplayNamesCanCollide | SYS_ATL/LoopIR_pprint.py:106-127 | After `x` is bound twice it displays as `x_1`. A raw name `x_1` bound next also displays as `x_1`. |
| ExprPrinter.RenderExpr | SYS_ATL/LoopIR_pprint.py:180-204 | `pexpr` as a pure function of the stack, the expression and the context. Its laws are `ContextOnlyWraps`, `BinaryOperands` and `UnaryMinusLayout`, and `ExprTokens.RenderedExpressionsParseBack` reads its output back. |
| ExprPrinter.RenderIndices | SYS_ATL/LoopIR_pprint.py:182-184 | Every index is rendered at context 0, in order, one text per index. |
| ExprPrinter.ContextOnlyWraps | SYS_ATL/LoopIR_pprint.py:189-198 | The text at context `prec` is the text at context 0, wrapped in parentheses exactly when the expression is a binary operation whose level is below `prec`. At context 0 nothing is wrapped. |
| ExprPrinter.BinaryOperands | SYS_ATL/LoopIR_pprint.py:189-198 | The left operand is wrapped exactly when it is a binary operation of strictly lower level. The right operand is wrapped exactly when it is one of lower or equal level. The operator has single spaces around it. |
| ExprPrinter.UnaryMinusLayout | SYS_ATL/LoopIR_pprint.py:199-200 | `-x` is never wrapped at any context, and its operand is wrapped exactly when it is a binary operation. |
| ExprPrinter.WrappingIsMonotone | SYS_ATL/LoopIR_pprint.py:196-197 | For contexts `p <= q`, the text at `q` is the text at `p`, wrapped exactly when `q` forces parentheses that `p` did not. Raising the context can only add parentheses. |
| ExprPrinter.UnboundNamePrintsRepr | SYS_ATL/LoopIR_pprint.py:185-186 | A name that no frame binds prints as its `repr`, at any context. |
| ExprPrinter.ChainedComparisonExample | SYS_ATL/LoopIR_pprint.py:189-198 | `(a < b) < c` prints as `a < b < c`, which Python reads as a chained comparison. |
| ExprPrinter.LeftChainExample | SYS_ATL/LoopIR_pprint.py:190-193 | `(a - b) - c` prints as `a - b - c`. |
| ExprPrinter.RightChainExample | SYS_ATL/LoopIR_pprint.py:190-193 | `a - (b - c)` prints as `a - (b - c)`. |
| ExprPrinter.MixedLevelExamples | SYS_ATL/LoopIR_pprint.py:189-198 | `a + b * c` has no parentheses, and `(a + b) * c` keeps them. |
| ExprPrinter.LogicExample | SYS_ATL/LoopIR_pprint.py:189-198 | `(a < b) or (b and c)` prints as `a < b or b and c`. |
| ExprPrinter.UnaryExamples | SYS_ATL/LoopIR_pprint.py:199-200 | `-(a + b)` keeps its parentheses, and `(-a) + b` prints as `-a + b`. |
| ExprTokens.SpellToks | SYS_ATL/LoopIR_pprint.py:180-202 | The token view spells exactly the text `pexpr` returns, at every context. |
| ExprTokens.SpellIndexToks | SYS_ATL/LoopIR_pprint.py:182-184 | The index tokens spell the comma-joined index texts. |
| ExprTokens.ParseRendered | SYS_ATL/LoopIR_pprint.py:189-200 | The tokens of an expression rendered at any context, followed by anything that may follow that context, are read as exactly that expression. |
| ExprTokens.RenderedExpressionsParseBack | SYS_ATL/LoopIR_pprint.py:180-202 | The token sequence that spells the rendered text reads back as the same tree, with identifiers replaced by their display names, for a reader that treats every level, comparisons included, as left-associative. Python does not read comparisons that way (see `ChainedComparisonExample`). |
| ExprTokens.SameTokensSameTree | SYS_ATL/LoopIR_pprint.py:189-198 | Two expressions with the same rendering tokens have the same structure. |
| StmtPrinter.Push | SYS_ATL/LoopIR_pprint.py:95-97 | `push` opens an empty frame and adds two spaces of indentation. `Scopes.PushKeepsBindings` and `PopUndoesPush` state what it preserves. |
| StmtPrinter.Pop | SYS_ATL/LoopIR_pprint.py:99-101 | `pop` drops the innermost frame and the last two characters of the indentation, which is empty when fewer remain. |
| StmtPrinter.PopUndoesPush | SYS_ATL/LoopIR_pprint.py:95-101 | `pop` right after `push` gives back the printer exactly as it was. |
| StmtPrinter.AddLine | SYS_ATL/LoopIR_pprint.py:103-104 | `addline` appends the line after the current indentation. `AddLineExtends` states what it keeps. |
| StmtPrinter.BlockRestores | SYS_ATL/LoopIR_pprint.py:95-101 | After `push`, a block and `pop`, the stack and the indentation are what they were before the `push`. |
| StmtPrinter.AddLineExtends | SYS_ATL/LoopIR_pprint.py:103-104 | `addline` only appends, at the current indentation. |
| StmtPrinter.RenderStmts | SYS_ATL/LoopIR_pprint.py:142-143 | A statement list keeps every earlier line and the indentation. It changes only the innermost frame, and every line it adds starts with the current indentation. |
| StmtPrinter.RenderStmt | SYS_ATL/LoopIR_pprint.py:144-176 | The same holds for one statement of any kind, with `Alloc` in its corrected form. |
| StmtPrinter.RenderIf | SYS_ATL/LoopIR_pprint.py:160-170 | The same holds for `if`/`else`. |
| StmtPrinter.RenderLoop | SYS_ATL/LoopIR_pprint.py:171-176 | The same holds for `for`. |
| StmtPrinter.RenderWrite | SYS_ATL/LoopIR_pprint.py:146-157 | The same holds for `Assign`/`Reduce`. |
| StmtPrinter.AllocAsWritten | SYS_ATL/LoopIR_pprint.py:158-159 | The Alloc branch as written always raises, with `AttributeError` once the name is bound. |
| StmtPrinter.RenderFnArg | SYS_ATL/LoopIR_pprint.py:139-140 | `pfnarg` fails exactly when `new_name(a.name)` fails. Otherwise the stack is the one `new_name` leaves, and the text is `<name> : <type> @ <effect>`, where the name is what `get_name` reads for the argument afterwards. It emits no line. |
| StmtPrinter.RenderSizes | SYS_ATL/LoopIR_pprint.py:131 | One text per size parameter. Only the innermost frame changes. The texts themselves are stated by `StmtProperties.SizesShowBindings`. |
| StmtPrinter.RenderFnArgs | SYS_ATL/LoopIR_pprint.py:132 | One text per argument. Only the innermost frame changes. The texts themselves are stated by `StmtProperties.ArgsShowBindings`. |
| StmtPrinter.ProcName | SYS_ATL/LoopIR_pprint.py:130 | `p.name or "_anon_"`: a non-empty name is kept, and the printed name is never empty. |
| StmtPrinter.RenderProc | SYS_ATL/LoopIR_pprint.py:129-137 | `pproc` keeps earlier lines and the indentation. |
| StmtPrinter.PrintText | SYS_ATL/LoopIR_pprint.py:91 | The lines of `Print` joined with newlines, the text `str()` hands to the formatter. It fails exactly when `Print` fails, and a single line is passed through unchanged. |
| StmtPrinter.Print | SYS_ATL/LoopIR_pprint.py:71-88 | The constructor starts from one empty frame, no indentation and no lines, and dispatches on the node kind. An argument or an expression always prints as exactly one line. |
| StmtProperties.BodyLayout | SYS_ATL/LoopIR_pprint.py:142-176 | A statement list adds exactly one line per entry of its depth list. Each line is indented two spaces per level. |
| StmtProperties.StmtLayout | SYS_ATL/LoopIR_pprint.py:144-176 | One statement adds one line per entry of its depth list: one line for a simple statement, and a header plus a deeper body for `if` and `for`. |
| StmtProperties.IfLayout | SYS_ATL/LoopIR_pprint.py:160-170 | `if` adds its header at depth `d` and the then-branch at `d+1`. When there is an else branch, it adds `else:` at `d` and that branch at `d+1`. |
| StmtProperties.LoopLayout | SYS_ATL/LoopIR_pprint.py:171-176 | `for` adds its header at depth `d` and its body at `d+1`. |
| StmtProperties.LeafEmitsOneLine | SYS_ATL/LoopIR_pprint.py:144-159 | Pass, Assign, Reduce and the corrected Alloc each add exactly one line, at the current indentation. |
| StmtProperties.WriteRendersBeforeRenaming | SYS_ATL/LoopIR_pprint.py:146-157 | The right-hand side and the indices are rendered with the stack as it was before the statement. Only then is the target (indexed or not) re-bound. The line is `<new name><indices> <op> <rhs>`, and an already-bound target prints under a display name different from the one it had. |
| StmtProperties.AllocDeclares | SYS_ATL/LoopIR_pprint.py:158-159 | The corrected Alloc binds the name and prints `<name> : <type>`. It fails exactly when the binding fails. |
| StmtProperties.AllocAsWrittenNeverPrints | SYS_ATL/LoopIR_pprint.py:158-159 | Whenever the name can be bound, the branch as written raises and the corrected one prints. |
| StmtProperties.IfRestoresScope | SYS_ATL/LoopIR_pprint.py:160-170 | After `if`, the stack and the indentation are exactly as before: nothing bound in either branch stays visible. The header `if <cond>:` comes first, with the condition rendered under the old stack. |
| StmtProperties.IfElseLine | SYS_ATL/LoopIR_pprint.py:166-170 | `else:` comes right after the then-branch's lines, at the header's indentation. |
| StmtProperties.BlockLineCount | SYS_ATL/LoopIR_pprint.py:163-165 | A block adds one line per entry of its depth list. |
| StmtProperties.ForAllBindsInEnclosingFrame | SYS_ATL/LoopIR_pprint.py:171-176 | The range is rendered under the old stack. The loop variable is bound in the enclosing frame, before the `push`, and stays bound after the loop. The header is `for <new name> in <range>:`. |
| StmtProperties.SelfAssignmentExample | SYS_ATL/LoopIR_pprint.py:146-157 | `x = 0; x = x + 1` prints `x = 0` and then `x_1 = x + 1`. |
| StmtProperties.NestedLoopsExample | SYS_ATL/LoopIR_pprint.py:171-176 | A loop over `i` nested in a loop over `i` prints `i_1`. A sibling loop after both also prints `i_1`. |
| StmtProperties.ProcSignature | SYS_ATL/LoopIR_pprint.py:130-133 | The signature line is exactly `def <name>(<texts>):` at the current indentation. The texts are the size texts followed by the argument texts, joined by commas: the ones `SizesShowBindings` and `ArgsShowBindings` describe. |
| StmtProperties.ProcLayout | SYS_ATL/LoopIR_pprint.py:129-137 | `pproc` emits the `def <name>(` line first and then the body one level deeper, one line per depth entry. Its indentation ends where it began. |
| StmtProperties.SizesShowBindings | SYS_ATL/LoopIR_pprint.py:131 | The size texts fail exactly when binding the size names in turn fails. The stack afterwards is the stack after those bindings. Text `k` is `<name> : size`, where the name is the one `get_name` reads for size `k` right after the first `k + 1` bindings. |
| StmtProperties.ArgsShowBindings | SYS_ATL/LoopIR_pprint.py:132 | The argument texts fail exactly when binding the argument names in turn fails. The stack afterwards is the stack after those bindings. Text `k` is `<name> : <type> @ <effect>`, where the name is the one `get_name` reads for argument `k` right after the first `k + 1` bindings. |
| StmtProperties.FreshSizesKeepNames | SYS_ATL/LoopIR_pprint.py:131 | Distinct, unbound size names never fail and each prints as `<name> : size`, in order. |
| StmtProperties.PrintedStatementLayout | SYS_ATL/LoopIR_pprint.py:83-84 | A statement printed on its own gives one line per depth entry, each indented two spaces per level. |
| StmtProperties.PrintedLeaves | SYS_ATL/LoopIR_pprint.py:79-86 | An argument printed on its own is one line `<name> : <type> @ <effect>` under its own name. An expression printed on its own is one line at context 0, where every name prints as its `repr`. |

## Left out

- yapf's `FormatCode` and the `linted` assertion in `str()` are left out. They are a call into a foreign library, so the model stops at the list of lines; `StmtPrinter.PrintText` joins them with newlines.
- The `@extclass` installation of `__str__` on the IR classes is left out: it is dynamic dispatch with no behaviour of its own.
- `LoopIR_PPrinter` is a line-for-line copy of `UAST_PPrinter` that also dispatches on `UAST` types, so it is not modelled separately.
- The internals of `Environment` are not part of this model. Its interface is the stated assumption above.
- `str(nm)`, `repr(nm)`, `str(e.val)`, `str(a.type)` and `str(a.effect)` are opaque strings, carried in the tree as given.
- The `assert False` branches for unknown node, statement and expression kinds are left out. Closed datatypes make them unreachable, and the operators are exactly the keys of the precedence table, so the `KeyError` case cannot arise.
- Python's `re` is modelled only for the one pattern the printer uses, `^(.*)_([0-9]*)$`.
- StmtPrinter.RenderStmt: its Alloc branch prints `<name> : <type>` with the statement's own type. That is the corrected branch. The source's line 159 reads `self.type` and always raises. The branch as written is `StmtPrinter.AllocAsWritten`, and `Print`, `LeafEmitsOneLine`, `BodyLayout` and `PrintedStatementLayout` describe the corrected printer for `Alloc` (see Findings).
- StmtPrinter.RenderStmts: its own contract states only the shape of the printer after a list (earlier lines kept, indentation kept, new lines at the current indentation). The line count and per-line indentation are stated separately, by `StmtProperties.BodyLayout`.

## Findings

| source | as written | input that shows it | evidently intended | confidence | as-written member | corrected member |
|---|---|---|---|---|---|---|
| SYS_ATL/LoopIR_pprint.py:159 | The Alloc line reads `self.type`, an attribute the printer never sets, so printing any `Alloc` raises `AttributeError` after binding its name. | `Alloc(x, "R")` under a fresh printer | `stmt.type`: print `<name> : <type>` | not executed | StmtPrinter.AllocAsWritten | StmtProperties.AllocDeclares |
