/**
 * `GoUnresolvedReferenceInspection.checkFile`: a post-order walk over a Go
 * file's syntax tree that registers a problem for every reference, type
 * reference and import path the resolver cannot resolve, except references
 * whose qualifier is itself unresolved.
 */
module UnresolvedReference {
  import opened Options
  import opened JavaStrings

  /** The identity of a PSI element (an identifier, an import string, a resolution target). */
  type ElementId = nat
  /** A `PsiReference` handle, handed to the resolver. */
  type ReferenceId = nat

  datatype HighlightType = GenericErrorOrWarning | LikeUnknownSymbol

  /** A range relative to the start of the element it belongs to. */
  datatype TextRange = TextRange(startOffset: nat, endOffset: nat)

  /** The quick fix that runs `go get` on the import path. */
  datatype QuickFix = GoGetPackageFix(packageName: string)

  /**
   * One registered problem. `range` is `None` when the whole element is
   * highlighted (the `registerProblem` overload without a range).
   */
  datatype ProblemDescriptor = ProblemDescriptor(
    element: ElementId,
    description: string,
    highlightType: HighlightType,
    range: Option<TextRange>,
    fix: Option<QuickFix>)

  datatype Identifier = Identifier(id: ElementId, text: string)

  /**
   * A (type) reference expression: its identifier, its `getReference()` (null
   * possible) and its optional qualifier, a reference expression of the same kind.
   */
  datatype RefExpr = RefExpr(identifier: Identifier, reference: Option<ReferenceId>, qualifier: Option<RefExpr>)

  /** `GoReferenceExpression` or `GoTypeReferenceExpression`. */
  datatype RefKind = ValueRef | TypeRef

  /** The node kinds the visitor dispatches on; any other element is walked structurally. */
  datatype Node =
    | Reference(kind: RefKind, expr: RefExpr)
    | ImportString(id: ElementId, text: string, reference: Option<ReferenceId>)
    | Element(children: seq<Node>)

  datatype PsiFile = PsiFile(isGoFile: bool, children: seq<Node>)

  /**
   * The collaborators the inspection consults: the resolver behind
   * `PsiReference.resolve()`, `getSdkPath` and `StringUtil.unquoteString`.
   */
  datatype Environment = Environment(
    resolve: ReferenceId -> Option<ElementId>,
    sdkPath: ElementId -> Option<string>,
    unquote: string -> string)

  /** `reference != null && reference.resolve() != null`. */
  predicate Resolves(env: Environment, reference: Option<ReferenceId>) {
    reference.Some? && env.resolve(reference.value).Some?
  }

  /** The qualifier is present and does not resolve: the early `return`. */
  predicate QualifierUnresolved(env: Environment, e: RefExpr) {
    e.qualifier.Some? && !Resolves(env, e.qualifier.value.reference)
  }

  function UnresolvedMessage(kind: RefKind, name: string): string {
    match kind
    case ValueRef => "Unresolved reference " + "'" + name + "'"
    case TypeRef => "Unresolved type " + "'" + name + "'"
  }

  function ImportMessage(text: string): string {
    "Unresolved import " + "'" + text + "'"
  }

  /** What the visitor registers for one (type) reference expression, its qualifier aside. */
  function ReferenceDecision(env: Environment, kind: RefKind, e: RefExpr): Option<ProblemDescriptor> {
    if QualifierUnresolved(env, e) then None
    else if !Resolves(env, e.reference) then
      Some(ProblemDescriptor(e.identifier.id, UnresolvedMessage(kind, e.identifier.text), LikeUnknownSymbol, None, None))
    else None
  }

  /** What the visitor registers for one import string. */
  function ImportDecision(env: Environment, id: ElementId, text: string, reference: Option<ReferenceId>): Option<ProblemDescriptor> {
    if |text| < 2 then None
    else if Resolves(env, reference) then None
    else
      var unquoted := env.unquote(text);
      var spaces := IsEmptyOrSpaces(unquoted);
      var highlight := if spaces then GenericErrorOrWarning else LikeUnknownSymbol;
      var range := if spaces then TextRange(0, |text|) else TextRange(1, |text| - 1);
      var fix := if env.sdkPath(id).None? then None else Some(GoGetPackageFix(unquoted));
      Some(ProblemDescriptor(id, ImportMessage(unquoted), highlight, Some(range), fix))
  }

  // ---------------------------------------------------------------------------
  // The problems one pass registers, in registration order.

  /** The qualifier chain first (`super.visit…`), then the expression itself. */
  function ChainProblems(env: Environment, kind: RefKind, e: RefExpr): seq<ProblemDescriptor>
    decreases e
  {
    (if e.qualifier.Some? then ChainProblems(env, kind, e.qualifier.value) else [])
    + ToSeq(ReferenceDecision(env, kind, e))
  }

  function NodeProblems(env: Environment, n: Node): seq<ProblemDescriptor>
    decreases n
  {
    match n
    case Reference(kind, e) => ChainProblems(env, kind, e)
    case ImportString(id, text, reference) => ToSeq(ImportDecision(env, id, text, reference))
    case Element(children) => ChildrenProblems(env, children)
  }

  function ChildrenProblems(env: Environment, children: seq<Node>): seq<ProblemDescriptor>
    decreases children
  {
    if children == [] then []
    else ChildrenProblems(env, children[..|children| - 1]) + NodeProblems(env, children[|children| - 1])
  }

  /** `checkFile`: nothing for a file that is not a Go file. */
  function FileProblems(env: Environment, file: PsiFile): seq<ProblemDescriptor> {
    if !file.isGoFile then [] else ChildrenProblems(env, file.children)
  }

  // ---------------------------------------------------------------------------
  // Per-node decisions.

  /** Cascade suppression: a reference whose qualifier does not resolve gets no problem. */
  lemma CascadeSuppression(env: Environment, kind: RefKind, e: RefExpr)
    requires QualifierUnresolved(env, e)
    ensures ReferenceDecision(env, kind, e) == None
    ensures NodeProblems(env, Reference(kind, e)) == NodeProblems(env, Reference(kind, e.qualifier.value))
  {
  }

  /** The identifiers of a qualifier chain. */
  function ChainIds(e: RefExpr): set<ElementId>
    decreases e
  {
    {e.identifier.id} + (if e.qualifier.Some? then ChainIds(e.qualifier.value) else {})
  }

  /** Every problem of a chain is anchored at one of the chain's identifiers. */
  lemma {:induction false} ChainProblemsAnchored(env: Environment, kind: RefKind, e: RefExpr)
    ensures forall p | p in ChainProblems(env, kind, e) :: p.element in ChainIds(e)
    decreases e
  {
    if e.qualifier.Some? {
      ChainProblemsAnchored(env, kind, e.qualifier.value);
    }
  }

  /**
   * Cascade suppression stated on the problems of the whole expression: when
   * its identifier is not reused inside its qualifier, none of them is
   * anchored at that identifier.
   */
  lemma NothingAtSuppressedIdentifier(env: Environment, kind: RefKind, e: RefExpr)
    requires QualifierUnresolved(env, e)
    requires e.identifier.id !in ChainIds(e.qualifier.value)
    ensures forall p | p in NodeProblems(env, Reference(kind, e)) :: p.element != e.identifier.id
  {
    ChainProblemsAnchored(env, kind, e.qualifier.value);
  }

  /**
   * An unresolved (type) reference whose qualifier is absent or resolves gets
   * exactly one problem, at its identifier, with the kind's message.
   */
  lemma UnresolvedReferenceReported(env: Environment, kind: RefKind, e: RefExpr)
    requires !QualifierUnresolved(env, e)
    requires !Resolves(env, e.reference)
    ensures ReferenceDecision(env, kind, e).Some?
    ensures var p := ReferenceDecision(env, kind, e).value;
      && p.element == e.identifier.id
      && p.highlightType == LikeUnknownSymbol
      && p.range.None? && p.fix.None?
      && (kind == ValueRef ==> p.description == "Unresolved reference '" + e.identifier.text + "'")
      && (kind == TypeRef ==> p.description == "Unresolved type '" + e.identifier.text + "'")
    ensures NodeProblems(env, Reference(kind, e))
      == (if e.qualifier.Some? then NodeProblems(env, Reference(kind, e.qualifier.value)) else [])
         + [ReferenceDecision(env, kind, e).value]
  {
  }

  /** A (type) reference gets a problem exactly when its qualifier does not block it and it does not resolve. */
  lemma ReferenceDecisionIff(env: Environment, kind: RefKind, e: RefExpr)
    ensures ReferenceDecision(env, kind, e).Some?
        <==> (e.qualifier.None? || Resolves(env, e.qualifier.value.reference)) && !Resolves(env, e.reference)
  {
  }

  /** An import string shorter than two characters never gets a problem. */
  lemma ShortImportSilent(env: Environment, id: ElementId, text: string, reference: Option<ReferenceId>)
    requires |text| < 2
    ensures ImportDecision(env, id, text, reference) == None
    ensures NodeProblems(env, ImportString(id, text, reference)) == []
  {
  }

  /** A resolved import gets no problem at all. */
  lemma ResolvedImportSilent(env: Environment, id: ElementId, text: string, reference: Option<ReferenceId>)
    requires Resolves(env, reference)
    ensures ImportDecision(env, id, text, reference) == None
  {
  }

  /**
   * The policy for an unresolved import string of length at least two: the
   * message quotes the unquoted text; blank text is a generic error over the
   * whole literal, other text an unknown symbol inside the quotes; either
   * range lies inside the literal; the fix carries the unquoted text and is
   * attached exactly when the SDK path is known.
   */
  lemma UnresolvedImportPolicy(env: Environment, id: ElementId, text: string, reference: Option<ReferenceId>)
    requires |text| >= 2
    requires !Resolves(env, reference)
    ensures ImportDecision(env, id, text, reference).Some?
    ensures var p := ImportDecision(env, id, text, reference).value;
      var unquoted := env.unquote(text);
      && p.element == id
      && p.description == "Unresolved import '" + unquoted + "'"
      && p.range.Some?
      && 0 <= p.range.value.startOffset <= p.range.value.endOffset <= |text|
      && (IsEmptyOrSpaces(unquoted) ==>
            p.highlightType == GenericErrorOrWarning && p.range.value == TextRange(0, |text|))
      && (!IsEmptyOrSpaces(unquoted) ==>
            p.highlightType == LikeUnknownSymbol && p.range.value == TextRange(1, |text| - 1))
      && (p.fix.Some? <==> env.sdkPath(id).Some?)
      && (p.fix.Some? ==> p.fix.value == GoGetPackageFix(unquoted))
  {
  }

  /** An import string gets a problem exactly when it is at least two long and does not resolve. */
  lemma ImportDecisionIff(env: Environment, id: ElementId, text: string, reference: Option<ReferenceId>)
    ensures ImportDecision(env, id, text, reference).Some? <==> |text| >= 2 && !Resolves(env, reference)
  {
  }

  // ---------------------------------------------------------------------------
  // The traversal: the problems are the per-node decisions, in post-order.

  /** One node the visitor stops at, with what it needs to decide. */
  datatype Visit =
    | VisitReference(kind: RefKind, expr: RefExpr)
    | VisitImport(id: ElementId, text: string, reference: Option<ReferenceId>)

  /** The nodes a `GoRecursiveVisitor` reaches, each qualifier before its expression. */
  function ChainVisits(kind: RefKind, e: RefExpr): seq<Visit>
    decreases e
  {
    (if e.qualifier.Some? then ChainVisits(kind, e.qualifier.value) else []) + [VisitReference(kind, e)]
  }

  function Visits(n: Node): seq<Visit>
    decreases n
  {
    match n
    case Reference(kind, e) => ChainVisits(kind, e)
    case ImportString(id, text, reference) => [VisitImport(id, text, reference)]
    case Element(children) => ChildrenVisits(children)
  }

  function ChildrenVisits(children: seq<Node>): seq<Visit>
    decreases children
  {
    if children == [] then [] else ChildrenVisits(children[..|children| - 1]) + Visits(children[|children| - 1])
  }

  function Decide(env: Environment, v: Visit): Option<ProblemDescriptor> {
    match v
    case VisitReference(kind, e) => ReferenceDecision(env, kind, e)
    case VisitImport(id, text, reference) => ImportDecision(env, id, text, reference)
  }

  /** The decisions of a list of visits, in that order. */
  function DecideAll(env: Environment, vs: seq<Visit>): seq<ProblemDescriptor>
    decreases |vs|
  {
    if vs == [] then [] else DecideAll(env, vs[..|vs| - 1]) + ToSeq(Decide(env, vs[|vs| - 1]))
  }

  lemma {:induction false} DecideAllAppend(env: Environment, a: seq<Visit>, b: seq<Visit>)
    ensures DecideAll(env, a + b) == DecideAll(env, a) + DecideAll(env, b)
    decreases |b|
  {
    if b == [] {
      assert a + b == a;
    } else {
      var b' := b[..|b| - 1];
      assert (a + b)[..|a + b| - 1] == a + b';
      assert (a + b)[|a + b| - 1] == b[|b| - 1];
      DecideAllAppend(env, a, b');
    }
  }

  lemma {:induction false} ChainIsPostOrder(env: Environment, kind: RefKind, e: RefExpr)
    ensures ChainProblems(env, kind, e) == DecideAll(env, ChainVisits(kind, e))
    decreases e
  {
    var before := if e.qualifier.Some? then ChainVisits(kind, e.qualifier.value) else [];
    if e.qualifier.Some? {
      ChainIsPostOrder(env, kind, e.qualifier.value);
    }
    DecideAllAppend(env, before, [VisitReference(kind, e)]);
    assert [] + [VisitReference(kind, e)] == [VisitReference(kind, e)];
  }

  /**
   * The problems of any subtree are exactly the per-node decisions taken at
   * the nodes it visits, in post-order (`Visits`), and the outcome at one node
   * never stops the walk. That no element gets two problems is
   * `FileNoProblemTwice`.
   */
  lemma {:induction false} NodeIsPostOrder(env: Environment, n: Node)
    ensures NodeProblems(env, n) == DecideAll(env, Visits(n))
    decreases n
  {
    match n
    case Reference(kind, e) => ChainIsPostOrder(env, kind, e);
    case ImportString(id, text, reference) =>
      assert DecideAll(env, [VisitImport(id, text, reference)])
          == DecideAll(env, []) + ToSeq(Decide(env, VisitImport(id, text, reference)));
    case Element(children) => ChildrenArePostOrder(env, children);
  }

  lemma {:induction false} ChildrenArePostOrder(env: Environment, children: seq<Node>)
    ensures ChildrenProblems(env, children) == DecideAll(env, ChildrenVisits(children))
    decreases children
  {
    if children != [] {
      var init, last := children[..|children| - 1], children[|children| - 1];
      ChildrenArePostOrder(env, init);
      NodeIsPostOrder(env, last);
      DecideAllAppend(env, ChildrenVisits(init), Visits(last));
    }
  }

  /** The problems of a Go file are the decisions at the nodes its top-level children visit. */
  lemma FileIsPostOrder(env: Environment, file: PsiFile)
    ensures FileProblems(env, file) == if file.isGoFile then DecideAll(env, ChildrenVisits(file.children)) else []
  {
    if file.isGoFile {
      ChildrenArePostOrder(env, file.children);
    }
  }

  /** A problem is registered only for a visited node whose decision says so. */
  lemma {:induction false} DecidedProblemsComeFromVisits(env: Environment, vs: seq<Visit>, p: ProblemDescriptor)
    ensures p in DecideAll(env, vs) <==> exists i | 0 <= i < |vs| :: Decide(env, vs[i]) == Some(p)
    decreases |vs|
  {
    if vs != [] {
      var init := vs[..|vs| - 1];
      DecidedProblemsComeFromVisits(env, init, p);
      if p in DecideAll(env, vs) {
        if p !in DecideAll(env, init) {
          assert Decide(env, vs[|vs| - 1]) == Some(p);
        } else {
          var i :| 0 <= i < |init| && Decide(env, init[i]) == Some(p);
          assert vs[i] == init[i];
        }
      } else {
        forall i | 0 <= i < |vs| ensures Decide(env, vs[i]) != Some(p) {
          if i < |init| {
            assert vs[i] == init[i];
          }
        }
      }
    }
  }

  /** The element a visit's problem, if any, is anchored at. */
  function Anchor(v: Visit): ElementId {
    match v
    case VisitReference(_, e) => e.identifier.id
    case VisitImport(id, _, _) => id
  }

  /** No two visits share an anchor element. */
  predicate DistinctAnchors(vs: seq<Visit>) {
    forall i, j | 0 <= i < j < |vs| :: Anchor(vs[i]) != Anchor(vs[j])
  }

  /** No two problems are anchored at the same element. */
  predicate DistinctElements(ps: seq<ProblemDescriptor>) {
    forall i, j | 0 <= i < j < |ps| :: ps[i].element != ps[j].element
  }

  /** Every problem decided at a visit is anchored at that visit's element. */
  lemma AnchorOfDecision(env: Environment, v: Visit)
    ensures Decide(env, v).Some? ==> Decide(env, v).value.element == Anchor(v)
  {
  }

  /** Every decided problem is anchored at one of the visits' elements. */
  lemma AnchorsOfDecideAll(env: Environment, vs: seq<Visit>, p: ProblemDescriptor)
    requires p in DecideAll(env, vs)
    ensures exists i | 0 <= i < |vs| :: Anchor(vs[i]) == p.element && Decide(env, vs[i]) == Some(p)
  {
    DecidedProblemsComeFromVisits(env, vs, p);
    var i :| 0 <= i < |vs| && Decide(env, vs[i]) == Some(p);
    AnchorOfDecision(env, vs[i]);
  }

  /** Over visits with distinct anchors, no element is given two problems. */
  lemma {:induction false} NoProblemTwice(env: Environment, vs: seq<Visit>)
    requires DistinctAnchors(vs)
    ensures DistinctElements(DecideAll(env, vs))
    decreases |vs|
  {
    if vs != [] {
      var init, last := vs[..|vs| - 1], vs[|vs| - 1];
      assert DistinctAnchors(init) by {
        forall i, j | 0 <= i < j < |init| ensures Anchor(init[i]) != Anchor(init[j]) {
          assert init[i] == vs[i] && init[j] == vs[j];
        }
      }
      NoProblemTwice(env, init);
      var before, mine := DecideAll(env, init), ToSeq(Decide(env, last));
      var ps := DecideAll(env, vs);
      assert ps == before + mine;
      AnchorOfDecision(env, last);
      forall i, j | 0 <= i < j < |ps| ensures ps[i].element != ps[j].element {
        if j >= |before| {
          assert mine == [Decide(env, last).value];
          assert j == |before| && ps[j] == mine[0];
          assert ps[i] == before[i];
          AnchorsOfDecideAll(env, init, ps[i]);
          var k :| 0 <= k < |init| && Anchor(init[k]) == ps[i].element && Decide(env, init[k]) == Some(ps[i]);
          assert init[k] == vs[k];
          assert Anchor(vs[k]) != Anchor(vs[|vs| - 1]);
        } else {
          assert ps[i] == before[i] && ps[j] == before[j];
        }
      }
    }
  }

  /**
   * No element of a Go file is given two problems in one pass, as long as the
   * visited identifiers and import strings are distinct elements.
   */
  lemma FileNoProblemTwice(env: Environment, file: PsiFile)
    requires DistinctAnchors(ChildrenVisits(file.children))
    ensures DistinctElements(FileProblems(env, file))
  {
    FileIsPostOrder(env, file);
    NoProblemTwice(env, ChildrenVisits(file.children));
  }

  /**
   * In a Go file whose visited elements are distinct, a visit whose decision
   * is a problem contributes exactly that problem: it is registered, and it
   * is the only one anchored at that element.
   */
  lemma FileProblemAtDecidedVisit(env: Environment, file: PsiFile, k: nat)
    requires file.isGoFile
    requires DistinctAnchors(ChildrenVisits(file.children))
    requires k < |ChildrenVisits(file.children)|
    requires Decide(env, ChildrenVisits(file.children)[k]).Some?
    ensures var p := Decide(env, ChildrenVisits(file.children)[k]).value;
      && p in FileProblems(env, file)
      && forall q | q in FileProblems(env, file) && q.element == p.element :: q == p
  {
    var vs := ChildrenVisits(file.children);
    var p := Decide(env, vs[k]).value;
    FileIsPostOrder(env, file);
    DecidedProblemsComeFromVisits(env, vs, p);
    AnchorOfDecision(env, vs[k]);
    forall q | q in FileProblems(env, file) && q.element == p.element ensures q == p {
      AnchorsOfDecideAll(env, vs, q);
      var m :| 0 <= m < |vs| && Anchor(vs[m]) == q.element && Decide(env, vs[m]) == Some(q);
      assert m == k;
    }
  }

  /** Nothing is reported for a file that is not a Go file. */
  lemma NonGoFileSilent(env: Environment, file: PsiFile)
    requires !file.isGoFile
    ensures FileProblems(env, file) == []
  {
  }

  // ---------------------------------------------------------------------------
  // The imperative walk that `checkFile` performs.

  /** The `ProblemsHolder` sink: problems in registration order. */
  class ProblemsHolder {
    var problems: seq<ProblemDescriptor>

    constructor ()
      ensures problems == []
    {
      problems := [];
    }

    method RegisterProblem(p: ProblemDescriptor)
      modifies this
      ensures problems == old(problems) + [p]
    {
      problems := problems + [p];
    }
  }

  /** The anonymous `GoRecursiveVisitor` of `checkFile`. */
  class UnresolvedReferenceVisitor {
    const env: Environment
    const holder: ProblemsHolder

    constructor (env: Environment, holder: ProblemsHolder)
      ensures this.env == env && this.holder == holder
    {
      this.env := env;
      this.holder := holder;
    }

    /** `visitReferenceExpression` (`kind == ValueRef`) and `visitTypeReferenceExpression` (`kind == TypeRef`). */
    method VisitReferenceExpression(kind: RefKind, e: RefExpr)
      modifies holder
      ensures holder.problems == old(holder.problems) + ChainProblems(env, kind, e)
      decreases e
    {
      // super.visit…: the only child visited is the qualifier.
      if e.qualifier.Some? {
        VisitReferenceExpression(kind, e.qualifier.value);
      }
      var reference := e.reference;
      var qualifierRef := if e.qualifier.Some? then e.qualifier.value.reference else None;
      var qualifierResolve := if qualifierRef.Some? then env.resolve(qualifierRef.value) else None;
      if e.qualifier.Some? && qualifierResolve.None? {
        return;
      }
      if reference.None? || env.resolve(reference.value).None? {
        var id := e.identifier;
        var name := id.text;
        holder.RegisterProblem(ProblemDescriptor(id.id, UnresolvedMessage(kind, name), LikeUnknownSymbol, None, None));
      }
    }

    method VisitImportString(id: ElementId, text: string, reference: Option<ReferenceId>)
      modifies holder
      ensures holder.problems == old(holder.problems) + ToSeq(ImportDecision(env, id, text, reference))
    {
      if |text| < 2 {
        return;
      }
      var resolve := if reference.Some? then env.resolve(reference.value) else None;
      if resolve.None? {
        var unquoted := env.unquote(text);
        var spaces := IsEmptyOrSpaces(unquoted);
        var highlight := if spaces then GenericErrorOrWarning else LikeUnknownSymbol;
        var range := if spaces then TextRange(0, |text|) else TextRange(1, |text| - 1);
        var fix := if env.sdkPath(id).None? then None else Some(GoGetPackageFix(unquoted));
        holder.RegisterProblem(ProblemDescriptor(id, ImportMessage(unquoted), highlight, Some(range), fix));
      }
    }

    /** `accept`: dispatch on the node kind. */
    method Visit(n: Node)
      modifies holder
      ensures holder.problems == old(holder.problems) + NodeProblems(env, n)
      decreases n, 1
    {
      match n
      case Reference(kind, e) => VisitReferenceExpression(kind, e);
      case ImportString(id, text, reference) => VisitImportString(id, text, reference);
      case Element(children) => VisitChildren(children);
    }

    /** `acceptChildren`: the children in order. */
    method VisitChildren(children: seq<Node>)
      modifies holder
      ensures holder.problems == old(holder.problems) + ChildrenProblems(env, children)
      decreases children, 0
    {
      var i := 0;
      while i < |children|
        invariant 0 <= i <= |children|
        invariant holder.problems == old(holder.problems) + ChildrenProblems(env, children[..i])
      {
        assert children[..i + 1][..i] == children[..i];
        Visit(children[i]);
        i := i + 1;
      }
      assert children[..|children|] == children;
    }
  }

  /** `checkFile`: walks a Go file and registers its problems with `holder`. */
  method CheckFile(env: Environment, file: PsiFile, holder: ProblemsHolder)
    modifies holder
    ensures holder.problems == old(holder.problems) + FileProblems(env, file)
  {
    if !file.isGoFile {
      return;
    }
    var visitor := new UnresolvedReferenceVisitor(env, holder);
    visitor.VisitChildren(file.children);
  }
}
