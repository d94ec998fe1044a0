/**
 * The application's lesson state machine: a phase and a content buffer,
 * overwritten by submit, grown by one append per delivered fragment, moved to
 * Reading once the streaming call returns, and reset by restart. Also which
 * screens the application shows for a given phase and buffer.
 */
module App {

  import opened Wrappers
  import opened Types
  import opened GeminiService

  /** The in-order concatenation of fragments: the text a buffer holds after they were appended one by one. */
  function Concat(fs: seq<string>): string
  {
    if fs == [] then "" else fs[0] + Concat(fs[1..])
  }

  /** Concatenation distributes over sequence concatenation. */
  lemma {:induction false} ConcatAppend(a: seq<string>, b: seq<string>)
    ensures Concat(a + b) == Concat(a) + Concat(b)
  {
    if a == [] {
      assert a + b == b;
    } else {
      assert (a + b)[1..] == a[1..] + b;
      ConcatAppend(a[1..], b);
    }
  }

  /** Appending one fragment appends its text to the concatenation. */
  lemma ConcatSnoc(fs: seq<string>, x: string)
    ensures Concat(fs + [x]) == Concat(fs) + x
  {
    ConcatAppend(fs, [x]);
    assert [x][1..] == [];
  }

  /**
   * Fragment boundaries do not matter: splitting one fragment into two
   * adjacent fragments with the same combined text leaves the buffer unchanged.
   */
  lemma SplitInvariance(before: seq<string>, x: string, y: string, after: seq<string>)
    ensures Concat(before + [x + y] + after) == Concat(before + [x, y] + after)
  {
    ConcatAppend(before + [x + y], after);
    ConcatAppend(before + [x, y], after);
    ConcatAppend(before, [x + y]);
    ConcatAppend(before, [x, y]);
    assert [x, y][1..] == [y];
    assert [y][1..] == [];
    assert [x + y][1..] == [];
  }

  /** Concatenating fragments that are all non-empty is empty exactly when there are none. */
  lemma {:induction false} ConcatEmptyIff(fs: seq<string>)
    requires forall i :: 0 <= i < |fs| ==> fs[i] != ""
    ensures Concat(fs) == "" <==> fs == []
  {
    if fs != [] {
      assert |Concat(fs)| >= |fs[0]| > 0;
    }
  }

  /** The fixed screen elements rendered for a phase and a buffer. */
  datatype Screen = Screen(
    onboarding: bool,             // the onboarding form
    lessonView: Option<bool>,     // the lesson view, with its isGenerating property
    fullScreenLoader: bool)       // the loader over an empty generating lesson

  function Render(phase: AppState, content: string): (v: Screen)
  {
    Screen(
      phase == Onboarding,
      if phase == Generating || phase == Reading then Some(phase == Generating) else None,
      phase == Generating && |content| == 0)
  }

  /**
   * Exactly one of the form and the lesson view is shown, the view is told it
   * is generating exactly in the Generating phase, and the full-screen loader
   * appears only over a generating lesson view whose buffer is still empty.
   */
  lemma RenderShowsOneScreen(phase: AppState, content: string)
    ensures Render(phase, content).onboarding <==> phase == Onboarding
    ensures Render(phase, content).onboarding <==> Render(phase, content).lessonView.None?
    ensures Render(phase, content).lessonView == Some(true) <==> phase == Generating
    ensures Render(phase, content).lessonView == Some(false) <==> phase == Reading
    ensures Render(phase, content).fullScreenLoader <==> Render(phase, content).lessonView == Some(true) && content == ""
  {
  }

  /** The owner of the current phase and the accumulated lesson text. */
  class LessonMachine {
    var phase: AppState
    var content: string

    constructor ()
      ensures phase == Onboarding && content == ""
    {
      phase := Onboarding;
      content := "";
    }

    /** The first half of submit: no guard on the current phase, the buffer is cleared before any fragment. */
    method Submit()
      modifies this
      ensures phase == Generating && content == ""
    {
      phase := Generating;
      content := "";
    }

    /** The fragment handler: the chunk lands at the end and every earlier character stays. */
    method OnChunk(chunk: string)
      modifies this
      ensures content == old(content) + chunk
      ensures content[..|old(content)|] == old(content)
      ensures phase == old(phase)
    {
      content := content + chunk;
    }

    /** The second half of submit, once the streaming call has returned. */
    method Finish()
      modifies this
      ensures phase == Reading && content == old(content)
    {
      phase := Reading;
    }

    /** Restart, from any phase. */
    method Restart()
      modifies this
      ensures phase == Onboarding && content == ""
    {
      phase := Onboarding;
      content := "";
    }

    /**
     * One lesson, from submission to the end of the stream: whatever phase it
     * starts in, it ends Reading with the in-order concatenation of the
     * delivered fragments, and the instruction sent is the tailored one.
     */
    method RunLesson(ctx: UserContext, s: VendorStream) returns (sent: Request, fragments: seq<string>)
      modifies this
      ensures sent.instruction == Tailor(ctx)
      ensures fragments == Delivered(s)
      ensures phase == Reading && content == Concat(fragments)
    {
      Submit();
      sent, fragments := StreamLessonContent(ctx, s);
      var i := 0;
      while i < |fragments|
        invariant 0 <= i <= |fragments|
        invariant phase == Generating
        invariant content == Concat(fragments[..i])
      {
        assert fragments[..i + 1] == fragments[..i] + [fragments[i]];
        ConcatSnoc(fragments[..i], fragments[i]);
        OnChunk(fragments[i]);
        i := i + 1;
      }
      assert fragments[..i] == fragments;
      Finish();
    }
  }

  /**
   * A clean run's lesson text is the concatenation of the deliverable chunk
   * texts; it stays empty (and the loader stays up until the end) exactly when
   * no chunk carried text.
   */
  lemma CleanLessonText(s: VendorStream)
    requires s.failAt.None?
    ensures Concat(Delivered(s)) == Concat(Filter(s.chunks))
    ensures Concat(Delivered(s)) == "" <==> forall i :: 0 <= i < |s.chunks| ==> !Deliverable(s.chunks[i])
  {
    CleanRunDeliversFilter(s);
    DeliveredNonEmpty(s);
    ConcatEmptyIff(Delivered(s));
  }

  /**
   * A failed run's lesson text is what arrived before the failure followed by
   * the error notice, so the text is never empty and ends with the notice.
   */
  lemma FailedLessonText(s: VendorStream)
    requires s.failAt.Some?
    ensures Concat(Delivered(s)) == Concat(Filter(s.chunks[..ReadCount(s)])) + ErrorNotice
    ensures Concat(Delivered(s)) != ""
  {
    ConcatSnoc(Filter(s.chunks[..ReadCount(s)]), ErrorNotice);
  }

  /** Two text chunks and a clean end give the two texts joined, in order. */
  lemma TwoChunkLesson(a: string, b: string)
    requires a != "" && b != ""
    ensures Concat(Delivered(VendorStream([Some(a), Some(b)], None))) == a + b
  {
    var s := VendorStream([Some(a), Some(b)], None);
    CleanRunDeliversFilter(s);
    assert s.chunks == [Some(a)] + [Some(b)];
    FilterAppend([Some(a)], [Some(b)]);
    FilterSingle(Some(a));
    FilterSingle(Some(b));
    ConcatSnoc([a], b);
    ConcatSnoc([], a);
    assert [] + [a] == [a];
    assert [a] + [b] == [a, b];
  }

  /** After restart, stale fragments of a still running stream land on the fresh buffer: the code has no generation counter. */
  method StaleFragmentAfterRestart(chunk: string) returns (m: LessonMachine)
    ensures m.phase == Onboarding && m.content == chunk
  {
    m := new LessonMachine();
    m.Submit();
    m.Restart();
    m.OnChunk(chunk);
  }
}
