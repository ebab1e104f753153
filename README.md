# Unresolved references in Go files, and the "New Go File" action

A Dafny model of two pieces of a Go plugin for IntelliJ.

**The unresolved-reference inspection.** `checkFile` walks a Go file's syntax tree with a recursive
visitor. Children are visited before their parent, so a qualifier is visited before the expression
it qualifies. The visitor registers a problem for:

- each reference expression and type reference expression that does not resolve, unless its
  qualifier is present and does not resolve (cascade suppression);
- each import string of length at least two that does not resolve. Its highlight type and text
  range depend on whether the unquoted path is blank. A `go get` quick fix is attached when
  `getSdkPath` is non-null.

On every run of `go get`, the fix's listener collects each output text the process reports (a
chunk of output, not necessarily one line), in arrival order. On a non-zero exit it shows those
texts, joined by newlines, as a warning. The first text (the echoed command) is left out when there
is more than one.

**The "New Go File" action.** It has a file-name validator (`checkInput`, `canClose`,
`getErrorText`). It takes the `PACKAGE` template property from the directory name: the last
`-`-separated piece. All of its instances are equal and hash to 0.

Files:

- `strings.dfy`: `Option`, and the IntelliJ string helpers the code depends on: `isEmptyOrSpaces`,
  `join`, `split` with its default of dropping empty pieces, and `getLastItem`.
- `inspection.dfy`: the syntax tree, the per-node decisions, and the traversal as specification
  functions with their lemmas. Also the imperative visitor, the `ProblemsHolder` sink, and
  `CheckFile`, each proved equal to those functions.
- `getpackagefix.dfy`: the fix's message rule and output listener (a class whose output list grows
  in place), and its run over a given launch result.
- `createfileaction.dfy`: the validator, the package property and equality.

The collaborators that the code calls but that are not shown are parameters, passed as
function-valued fields of `Environment` and `NameServices`:

- the resolver (`PsiReference.resolve`);
- `getSdkPath`;
- `StringUtil.unquoteString`;
- `GoNamesValidator.isIdentifier`;
- `FileUtil.sanitizeFileName`.

Two details of the import policy:

- The quick fix is attached whenever `getSdkPath` is non-null, even when the unquoted import text
  is blank.
- "Blank" means `StringUtil.isEmptyOrSpaces`, that is, empty after Java's `trim()`. Every
  character at or below U+0020 counts as blank, not only whitespace.

## Model

| member | source | states |
|---|---|---|
| `UnresolvedReference.CascadeSuppression` | src/com/goide/inspections/GoUnresolvedReferenceInspection.java:52-55 | a (type) reference whose qualifier is present and unresolved gets no problem of its own; its subtree reports only what its qualifier chain reports |
| `UnresolvedReference.NothingAtSuppressedIdentifier` | src/com/goide/inspections/GoUnresolvedReferenceInspection.java:52-55 | with an unresolved qualifier, no registered problem of the expression's subtree is anchored at the expression's identifier |
| `UnresolvedReference.ChainProblemsAnchored` | src/com/goide/inspections/GoUnresolvedReferenceInspection.java:57-59 | every problem registered for a qualifier chain is anchored at one of the chain's identifiers |
| `UnresolvedReference.UnresolvedReferenceReported` | src/com/goide/inspections/GoUnresolvedReferenceInspection.java:56-59 | qualifier absent or resolved and reference null or unresolved: exactly one problem is added after the qualifier's. It is at the identifier, LIKE_UNKNOWN_SYMBOL, with no range and no fix. Its message is `Unresolved reference '<name>'`, or `Unresolved type '<name>'` for a type reference |
| `UnresolvedReference.ReferenceDecisionIff` | src/com/goide/inspections/GoUnresolvedReferenceInspection.java:52-89 | for both kinds (lines 52-59 for references, 82-89 for type references), a (type) reference gets a problem if and only if its qualifier is absent or resolves and it does not resolve itself |
| `UnresolvedReference.ShortImportSilent` | src/com/goide/inspections/GoUnresolvedReferenceInspection.java:65 | an import string shorter than 2 gets no problem, whatever the resolver says |
| `UnresolvedReference.ResolvedImportSilent` | src/com/goide/inspections/GoUnresolvedReferenceInspection.java:66-68 | a resolved import string gets no problem |
| `UnresolvedReference.UnresolvedImportPolicy` | src/com/goide/inspections/GoUnresolvedReferenceInspection.java:69-74 | unresolved import of length at least 2: message `Unresolved import '<unquoted>'`. Blank text is GENERIC_ERROR_OR_WARNING over [0, len); other text is LIKE_UNKNOWN_SYMBOL over [1, len-1). Both ranges lie in [0, len]. A fix carrying the unquoted text is attached if and only if the SDK path is non-null |
| `UnresolvedReference.ImportDecisionIff` | src/com/goide/inspections/GoUnresolvedReferenceInspection.java:64-76 | an import string gets a problem if and only if it is at least 2 long and does not resolve |
| `UnresolvedReference.NodeIsPostOrder` | src/com/goide/inspections/GoUnresolvedReferenceInspection.java:47-92 | the problems of any subtree are the per-node decisions at the nodes the recursive visitor reaches, in post-order, each node once |
| `UnresolvedReference.ChildrenArePostOrder` | src/com/goide/inspections/GoUnresolvedReferenceInspection.java:47-92 | the same for a list of siblings: their problems are the decisions at their visits, in order |
| `UnresolvedReference.FileIsPostOrder` | src/com/goide/inspections/GoUnresolvedReferenceInspection.java:45-93 | a Go file's problems are the decisions at the visits of its children; a non-Go file has none |
| `UnresolvedReference.DecidedProblemsComeFromVisits` | src/com/goide/inspections/GoUnresolvedReferenceInspection.java:47-92 | a problem is registered if and only if some visited node's decision produces it |
| `UnresolvedReference.NoProblemTwice` | src/com/goide/inspections/GoUnresolvedReferenceInspection.java:45-93 | over any visit sequence whose anchors (identifier or import string) are distinct, the decided problems are anchored at pairwise distinct elements |
| `UnresolvedReference.FileNoProblemTwice` | src/com/goide/inspections/GoUnresolvedReferenceInspection.java:45-93 | if the visited identifiers and import strings are distinct elements, no element of the file gets two problems in one pass |
| `UnresolvedReference.FileProblemAtDecidedVisit` | src/com/goide/inspections/GoUnresolvedReferenceInspection.java:45-93 | with distinct visited elements, a visited node whose decision is a problem (for example an unresolved reference) gets exactly one problem: that one is registered, and no other is anchored at its element |
| `UnresolvedReference.NonGoFileSilent` | src/com/goide/inspections/GoUnresolvedReferenceInspection.java:46 | a file that is not a Go file gets no problems |
| `UnresolvedReference.ProblemsHolder.RegisterProblem` | src/com/goide/inspections/GoUnresolvedReferenceInspection.java:59 | the sink appends the problem and keeps the earlier ones |
| `UnresolvedReference.UnresolvedReferenceVisitor.VisitReferenceExpression` | src/com/goide/inspections/GoUnresolvedReferenceInspection.java:49-61 | visiting a (type) reference appends exactly the problems of its qualifier chain, qualifier first |
| `UnresolvedReference.UnresolvedReferenceVisitor.VisitImportString` | src/com/goide/inspections/GoUnresolvedReferenceInspection.java:64-76 | visiting an import string appends exactly its decision's problem, if any |
| `UnresolvedReference.UnresolvedReferenceVisitor.Visit` | src/com/goide/inspections/GoUnresolvedReferenceInspection.java:47-92 | visiting any node appends exactly the problems of its subtree |
| `UnresolvedReference.UnresolvedReferenceVisitor.VisitChildren` | src/com/goide/inspections/GoUnresolvedReferenceInspection.java:47-92 | visiting the children in order appends the problems of each, in order |
| `UnresolvedReference.CheckFile` | src/com/goide/inspections/GoUnresolvedReferenceInspection.java:45-93 | the holder ends with its earlier problems followed by the file's problems |
| `GoGetPackage.FixName` | src/com/goide/inspections/GoUnresolvedReferenceInspection.java:99-102 | the fix's name is `Go get '`, the package name, then `'` |
| `GoGetPackage.FailureMessageOfOneLine` | src/com/goide/inspections/GoUnresolvedReferenceInspection.java:141 | with one captured line the body is that line |
| `GoGetPackage.FailureMessageOfNoLines` | src/com/goide/inspections/GoUnresolvedReferenceInspection.java:141 | with no captured line the body is empty |
| `GoGetPackage.FailureMessageJoinsAllButFirst` | src/com/goide/inspections/GoUnresolvedReferenceInspection.java:141 | with two or more texts, whatever they hold, the body is the first text's successors joined by `\n`: the second text, then for each later text a newline and that text |
| `GoGetPackage.FailureMessageDropsFirstLine` | src/com/goide/inspections/GoUnresolvedReferenceInspection.java:141 | with two or more newline-free texts, cutting the body at newlines gives back exactly all texts but the first, in order |
| `JavaStrings.JoinSplitRoundTrip` | src/com/goide/inspections/GoUnresolvedReferenceInspection.java:141 | joining newline-free lines with a one-character separator and cutting at that separator returns the lines |
| `GoGetPackage.OutputListener.OnTextAvailable` | src/com/goide/inspections/GoUnresolvedReferenceInspection.java:131-135 | each output text is appended at the end; none is removed |
| `GoGetPackage.OutputListener.ProcessTerminated` | src/com/goide/inspections/GoUnresolvedReferenceInspection.java:138-143 | no notification if and only if the exit code is 0; otherwise one warning titled TITLE whose body is the failure message of the collected output |
| `GoGetPackage.NotNullize` | src/com/goide/inspections/GoUnresolvedReferenceInspection.java:152 | a null exception message becomes the empty string, any other is kept |
| `GoGetPackage.Run` | src/com/goide/inspections/GoUnresolvedReferenceInspection.java:118-157 | the tool gets the arguments `get <package>` and a refresh is always requested. Exit 0 gives no notification. Any other exit gives one warning with the failure message of all output texts in arrival order. A launch error gives one warning with its message |
| `GoGetPackage.ApplyFix` | src/com/goide/inspections/GoUnresolvedReferenceInspection.java:105-159 | nothing runs if and only if the SDK path is null; otherwise the outcome is that of the run |
| `CreateFileAction.CheckInput` | src/com/goide/actions/GoCreateFileAction.java:55-57 | every input is accepted while typing |
| `CreateFileAction.ErrorTextAbsentIff` | src/com/goide/actions/GoCreateFileAction.java:65-71 | the error text is null if and only if the input is empty, or is an identifier that sanitising leaves unchanged |
| `CreateFileAction.ErrorTextMessage` | src/com/goide/actions/GoCreateFileAction.java:66-73 | any other input gets `'<input>' is not a valid Go file name`, with the input verbatim between the quotes |
| `CreateFileAction.CanCloseIff` | src/com/goide/actions/GoCreateFileAction.java:60-62 | the dialog may close if and only if the input is not blank and is a valid file name; then the error text is null |
| `CreateFileAction.BlankNeverCloses` | src/com/goide/actions/GoCreateFileAction.java:61 | empty or blank input never closes the dialog |
| `CreateFileAction.PackagePropertyIsClean` | src/com/goide/actions/GoCreateFileAction.java:30 | a derived package name is non-empty and holds no `-` |
| `CreateFileAction.PackagePropertyAbsentIff` | src/com/goide/actions/GoCreateFileAction.java:30 | `getLastItem` yields null if and only if the directory name is empty or all dashes |
| `CreateFileAction.PackagePropertyAfterLastDash` | src/com/goide/actions/GoCreateFileAction.java:30 | for `prefix-p` followed by any number of dashes, with `p` dash-free and non-empty, the package is `p` |
| `CreateFileAction.PackagePropertyWithoutDash` | src/com/goide/actions/GoCreateFileAction.java:30 | a dash-free name (with any trailing dashes) is its own package name |
| `CreateFileAction.Equals` | src/com/goide/actions/GoCreateFileAction.java:90-92 | `equals` holds if and only if the argument is a non-null instance of the action |
| `CreateFileAction.HashCode` | src/com/goide/actions/GoCreateFileAction.java:85-87 | the hash code is always 0 |
| `CreateFileAction.EqualsAgreesWithHashCode` | src/com/goide/actions/GoCreateFileAction.java:85-92 | any two instances are equal both ways, agree on every argument, and have equal hash codes; no instance equals null |

## Left out

- Process spawning and lifecycle are not modelled: `GeneralCommandLine`, `OSProcessHandler`, `startNotify`, `waitFor`, the `myHandler` field, `onCancel`/`destroyProcess` and the modal background task. This is OS I/O and concurrency. A run is given as a `Launch` value: the output texts and exit code, or a launch error.
- Cancellation is not modelled. It is asynchronous and destroys the process from another thread.
- `JpsGoSdkType.getGoExecutableFile` is not part of this model. The executable's path is not computed; only the arguments `get <package>` are.
- `Notifications.Bus.notify` and `LocalFileSystem.refresh` are not called. The notifications are returned as values, and the refresh as a flag.
- `ProgressIndicator` calls are left out. They are UI only.
- Resolution, `getSdkPath`, `StringUtil.unquoteString`, `GoNamesValidator.isIdentifier` and `FileUtil.sanitizeFileName` are parameters with no stated behaviour. Their implementations are not shown.
- The syntax tree has only three node kinds plus a generic element. A reference expression's only visited child is its qualifier, of the same kind. Identifier text ranges are not modelled: a problem without a range covers its whole anchor element.
- `createFile`'s template lookup, `FileTemplateUtil.createFromTemplate`, the fallback to the superclass and the logged exception are left out. They are template plumbing. When the property value is null, `Properties.setProperty` would throw; the model returns `None` and does not model that exception.
- `buildDialog` (`setTitle`, `addKind`), `getActionName`, the constructor and the icons are left out. They are UI plumbing.
- `StringUtil.split` is modelled only for its one-character separator `-` and its default flags. Those flags drop separators and empty pieces.
- `GoGetPackage.FailureMessageDropsFirstLine`: it assumes that no captured text holds a newline. A process handler's texts usually end with one; for those texts `GoGetPackage.FailureMessageJoinsAllButFirst` still describes the body.
- Lengths and text ranges count Unicode characters (Dafny's `char`). IntelliJ's `getTextLength` and `TextRange` count UTF-16 code units, so they differ for text outside the Basic Multilingual Plane. For example, `"\U{1D538}"` with its quotes is 3 long here and 4 in IntelliJ, and a bare `\U{1D538}` is silent here and reported there. A Go lexer does not produce such an import literal.
