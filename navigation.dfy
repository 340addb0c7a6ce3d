/**
 * The module navigation popover of src/modules/exams/ui/navigation-popover.tsx.
 *
 * The exam page shows one of four views: the questions of module A or B, or
 * the review page of module A or B. The popover lists the current module's
 * questions as numbered buttons and offers a jump to the review page; its
 * handlers call the exam page's setters and close the popover. Whether the
 * modules are locked is decided by the exam clock, which is not part of this
 * model; here the locks are given.
 */
module ExamNavigation {

  datatype ModuleView = ModelA | ModelB | ReviewA | ReviewB

  /** Computed by the popover (for its debug log): in a locked module's question view. */
  function ShouldShow(m: ModuleView, moduleALocked: bool, moduleBLocked: bool): (r: bool)
    ensures m.ReviewA? || m.ReviewB? ==> !r
    ensures m.ModelA? ==> (r <==> moduleALocked)
    ensures m.ModelB? ==> (r <==> moduleBLocked)
  {
    (m == ModelA && moduleALocked) || (m == ModelB && moduleBLocked)
  }

  /** The listed questions: module A's only in module A's question view, module B's otherwise. */
  function QuestionsFor<T>(m: ModuleView, modelAQuestions: seq<T>, modelBQuestions: seq<T>): (r: seq<T>)
    ensures r == modelAQuestions || r == modelBQuestions
    ensures m == ModelA ==> r == modelAQuestions
    ensures m != ModelA ==> r == modelBQuestions
  {
    if m == ModelA then modelAQuestions else modelBQuestions
  }

  /** The review page the "Go to Review Page" button opens. */
  function ReviewTarget(m: ModuleView): (r: ModuleView)
    ensures r.ReviewA? || r.ReviewB?
    ensures r == ReviewA <==> m == ModelA
  {
    if m == ModelA then ReviewA else ReviewB
  }

  /** A question button: React key, visible number, and the index it reports when clicked. */
  datatype NavButton = NavButton(key: int, number: int, reports: int)

  function Grid(questionIds: seq<int>): (g: seq<NavButton>)
    ensures |g| == |questionIds|
    ensures forall i :: 0 <= i < |g| ==> g[i].key == questionIds[i] && g[i].number == i + 1 && g[i].reports == i
  {
    seq(|questionIds|, i requires 0 <= i < |questionIds| => NavButton(questionIds[i], i + 1, i))
  }

  /** The exam page state the popover reads and sets, and the popover's own `open` flag. */
  class ExamNavigator {
    var open: bool
    var current: int
    var showReview: bool
    var currentModule: ModuleView
    const moduleALocked: bool
    const moduleBLocked: bool
    const modelAQuestions: seq<int>
    const modelBQuestions: seq<int>

    constructor (m: ModuleView, current: int, aLocked: bool, bLocked: bool, aIds: seq<int>, bIds: seq<int>)
      ensures !open && !showReview && currentModule == m && this.current == current
      ensures moduleALocked == aLocked && moduleBLocked == bLocked
      ensures modelAQuestions == aIds && modelBQuestions == bIds
    {
      open := false;
      this.current := current;
      showReview := false;
      currentModule := m;
      moduleALocked, moduleBLocked := aLocked, bLocked;
      modelAQuestions, modelBQuestions := aIds, bIds;
    }

    /** The buttons in the popover when it is open; the locks are not consulted. */
    function Buttons(): seq<NavButton>
      reads this
    {
      Grid(QuestionsFor(currentModule, modelAQuestions, modelBQuestions))
    }

    /** onOpenChange of the popover. */
    method SetOpen(o: bool)
      modifies this
      ensures open == o
      ensures current == old(current) && showReview == old(showReview) && currentModule == old(currentModule)
    {
      open := o;
    }

    method GoToReview()
      modifies this
      ensures showReview && currentModule == ReviewTarget(old(currentModule)) && !open
      ensures current == old(current)
    {
      showReview := true;
      currentModule := if currentModule == ModelA then ReviewA else ReviewB;
      open := false;
    }

    method QuestionClick(index: int)
      modifies this
      ensures current == index && !open
      ensures showReview == old(showReview) && currentModule == old(currentModule)
    {
      current := index;
      open := false;
    }
  }

  // ---------- Properties ----------

  /** With module A unlocked `shouldShow` is false, yet the popover lists every module A question. */
  lemma PopoverIgnoresShouldShow(aIds: seq<int>, bIds: seq<int>)
    ensures !ShouldShow(ModelA, false, false)
    ensures var g := Grid(QuestionsFor(ModelA, aIds, bIds));
      |g| == |aIds| && forall i :: 0 <= i < |g| ==> g[i].key == aIds[i]
  {
  }

  /** In module A's review the popover lists module B's questions. */
  lemma ReviewAListsModuleB(aIds: seq<int>, bIds: seq<int>)
    ensures QuestionsFor(ReviewA, aIds, bIds) == bIds
    ensures ReviewTarget(ReviewA) == ReviewB
  {
  }

  /** Clicking the button at position i of the open popover makes i the current index. */
  method ClickButton(nav: ExamNavigator, i: int) returns (clicked: int)
    requires 0 <= i < |nav.Buttons()|
    modifies nav
    ensures clicked == i && nav.current == i && !nav.open
    ensures nav.currentModule == old(nav.currentModule)
  {
    clicked := nav.Buttons()[i].reports;
    nav.QuestionClick(clicked);
  }
}
