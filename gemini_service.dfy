/**
 * The lesson streaming client. The instruction sent to the text-generation
 * service is tailored by three interpolated fields; the service's answer is an
 * input value here: the sequence of response chunks (each with or without
 * text) and the point, if any, at which the service call throws.
 */
module GeminiService {

  import opened Wrappers
  import opened Types

  /** The interest written into the instruction when the learner left the field empty. */
  const DefaultInterest: string := "General Overview"

  /** The single fragment delivered when the service call fails anywhere. */
  const ErrorNotice: string :=
    "\n\n**Error:** Failed to generate content. Please check your API key and try again."

  /** The three values interpolated into the instruction; its fixed prose is not modelled. */
  datatype Tailoring = Tailoring(mathComfort: string, codingExperience: string, specificInterest: string)

  /** The one message sent per call: the tailored instruction. */
  datatype Request = Request(instruction: Tailoring)

  /**
   * What the service does in answer to the one message: the response chunks in
   * arrival order (None for a chunk without text), and the failure point.
   * failAt == Some(k) means the call throws before chunk k is read: k == 0
   * covers a failure while creating the chat or sending the message, and any
   * k >= |chunks| a failure after the last chunk.
   */
  datatype VendorStream = VendorStream(chunks: seq<Option<string>>, failAt: Option<nat>)

  /** JavaScript's `interest || "General Overview"`: only the empty string is falsy. */
  function EffectiveInterest(interest: string): (r: string)
    ensures r != ""
    ensures interest != "" ==> r == interest
  {
    if interest == "" then DefaultInterest else interest
  }

  function Tailor(ctx: UserContext): Tailoring
  {
    Tailoring(MathLabel(ctx.mathLevel), CodingLabel(ctx.codingLevel), EffectiveInterest(ctx.specificInterest))
  }

  function BuildRequest(ctx: UserContext): Request
  {
    Request(Tailor(ctx))
  }

  /**
   * Two contexts yield the same instruction exactly when they agree on both
   * levels and on the effective interest: the labels are interpolated verbatim
   * and are distinct, so the only contexts the instruction conflates are an
   * empty interest and the literal interest "General Overview".
   */
  lemma TailorDistinguishes(c1: UserContext, c2: UserContext)
    ensures Tailor(c1) == Tailor(c2) <==>
      c1.mathLevel == c2.mathLevel && c1.codingLevel == c2.codingLevel &&
      EffectiveInterest(c1.specificInterest) == EffectiveInterest(c2.specificInterest)
  {
    LabelsInjective(c1.mathLevel, c2.mathLevel, c1.codingLevel, c2.codingLevel);
  }

  /** A non-empty interest reaches the instruction verbatim; an empty one becomes the default. */
  lemma TailorInterest(ctx: UserContext)
    ensures Tailor(ctx).specificInterest ==
      if ctx.specificInterest == "" then DefaultInterest else ctx.specificInterest
    ensures Tailor(ctx).mathComfort == MathLabel(ctx.mathLevel)
    ensures Tailor(ctx).codingExperience == CodingLabel(ctx.codingLevel)
  {
  }

  /** True when a chunk carries text the client passes on: present and non-empty. */
  predicate Deliverable(c: Option<string>)
  {
    c.Some? && c.value != ""
  }

  /** The texts of the deliverable chunks, in arrival order. */
  function Filter(cs: seq<Option<string>>): (r: seq<string>)
    ensures |r| <= |cs|
    ensures forall i :: 0 <= i < |r| ==> r[i] != ""
  {
    if cs == [] then []
    else (if Deliverable(cs[0]) then [cs[0].value] else []) + Filter(cs[1..])
  }

  /** Filtering distributes over concatenation: chunks are neither reordered nor merged. */
  lemma {:induction false} FilterAppend(a: seq<Option<string>>, b: seq<Option<string>>)
    ensures Filter(a + b) == Filter(a) + Filter(b)
  {
    if a == [] {
      assert a + b == b;
    } else {
      assert (a + b)[1..] == a[1..] + b;
      FilterAppend(a[1..], b);
    }
  }

  /** A single chunk contributes its text exactly when it is deliverable, and nothing otherwise. */
  lemma FilterSingle(c: Option<string>)
    ensures Filter([c]) == if Deliverable(c) then [c.value] else []
  {
    assert [c][1..] == [];
  }

  /** Reading one more chunk extends the filtered prefix by that chunk's text when it is deliverable. */
  lemma FilterStep(cs: seq<Option<string>>, i: nat)
    requires i < |cs|
    ensures Filter(cs[..i + 1]) == Filter(cs[..i]) + if Deliverable(cs[i]) then [cs[i].value] else []
  {
    assert cs[..i + 1] == cs[..i] + [cs[i]];
    FilterAppend(cs[..i], [cs[i]]);
    FilterSingle(cs[i]);
  }

  /** The number of chunks read before the call throws, or all of them when it does not. */
  function ReadCount(s: VendorStream): (n: nat)
    ensures n <= |s.chunks|
    ensures s.failAt.None? ==> n == |s.chunks|
    ensures s.failAt.Some? ==> n == if s.failAt.value < |s.chunks| then s.failAt.value else |s.chunks|
  {
    match s.failAt
    case None => |s.chunks|
    case Some(k) => if k < |s.chunks| then k else |s.chunks|
  }

  /**
   * The arguments of the successive onChunk calls: the deliverable chunk texts
   * read before the failure point, followed, on failure, by the one error notice.
   */
  function Delivered(s: VendorStream): seq<string>
  {
    Filter(s.chunks[..ReadCount(s)]) + (if s.failAt.Some? then [ErrorNotice] else [])
  }

  /**
   * The client: builds the one request from the context, then walks the
   * response, passing on each deliverable chunk's text once, and turns a
   * failure into a single error fragment instead of propagating it.
   * `sent` is the message sent; `fragments` lists the onChunk arguments in call order.
   */
  method StreamLessonContent(ctx: UserContext, s: VendorStream) returns (sent: Request, fragments: seq<string>)
    ensures sent.instruction == Tailor(ctx)
    ensures fragments == Delivered(s)
  {
    sent := BuildRequest(ctx);
    fragments := [];
    var i := 0;
    while i < |s.chunks| && s.failAt != Some(i)
      invariant 0 <= i <= |s.chunks|
      invariant s.failAt.Some? ==> i <= s.failAt.value
      invariant fragments == Filter(s.chunks[..i])
    {
      var c := s.chunks[i];
      FilterStep(s.chunks, i);
      if c.Some? && c.value != "" {
        fragments := fragments + [c.value];
      }
      i := i + 1;
    }
    // The call throws here when it fails: before chunk i, or after the last chunk.
    assert ReadCount(s) == i;
    if s.failAt.Some? {
      fragments := fragments + [ErrorNotice];
    }
  }

  /** With no failure, exactly the deliverable chunk texts arrive, with no closing marker fragment. */
  lemma CleanRunDeliversFilter(s: VendorStream)
    requires s.failAt.None?
    ensures Delivered(s) == Filter(s.chunks)
    ensures forall i :: 0 <= i < |Delivered(s)| ==> Delivered(s)[i] != ""
  {
    assert s.chunks[..|s.chunks|] == s.chunks;
  }

  /**
   * A failure before chunk k keeps what was already delivered, which is a
   * prefix of what a clean run would deliver, and appends exactly one error
   * notice as the last fragment.
   */
  lemma FailureKeepsPrefixThenNotice(chunks: seq<Option<string>>, k: nat)
    ensures var failed := Delivered(VendorStream(chunks, Some(k)));
      var clean := Delivered(VendorStream(chunks, None));
      |failed| >= 1 && failed[|failed| - 1] == ErrorNotice &&
      failed[..|failed| - 1] <= clean &&
      |failed| - 1 <= |clean|
  {
    var n := if k < |chunks| then k else |chunks|;
    assert chunks == chunks[..n] + chunks[n..];
    FilterAppend(chunks[..n], chunks[n..]);
    assert chunks[..|chunks|] == chunks;
    var failed := Delivered(VendorStream(chunks, Some(k)));
    assert failed[..|failed| - 1] == Filter(chunks[..n]);
  }

  /** A failure at or after the last chunk delivers the whole clean run and then the one error notice. */
  lemma LateFailureAppendsNotice(chunks: seq<Option<string>>, k: nat)
    requires k >= |chunks|
    ensures Delivered(VendorStream(chunks, Some(k))) == Delivered(VendorStream(chunks, None)) + [ErrorNotice]
  {
    assert chunks[..|chunks|] == chunks;
  }

  /** Every fragment is non-empty, so a run delivers nothing exactly when it is clean and no chunk is deliverable. */
  lemma DeliveredNonEmpty(s: VendorStream)
    ensures forall i :: 0 <= i < |Delivered(s)| ==> Delivered(s)[i] != ""
    ensures Delivered(s) == [] <==> s.failAt.None? && forall i :: 0 <= i < |s.chunks| ==> !Deliverable(s.chunks[i])
  {
    var d := Delivered(s);
    forall i | 0 <= i < |d| ensures d[i] != "" {
      var f := Filter(s.chunks[..ReadCount(s)]);
      if i >= |f| { assert d[i] == ErrorNotice; }
    }
    if s.failAt.None? {
      assert s.chunks[..ReadCount(s)] == s.chunks;
      NoDeliverableIffEmpty(s.chunks);
    }
  }

  lemma {:induction false} NoDeliverableIffEmpty(cs: seq<Option<string>>)
    ensures Filter(cs) == [] <==> forall i :: 0 <= i < |cs| ==> !Deliverable(cs[i])
  {
    if cs != [] {
      NoDeliverableIffEmpty(cs[1..]);
      if Deliverable(cs[0]) {
        assert Filter(cs)[0] == cs[0].value;
      } else {
        forall i | 0 <= i < |cs| && !Deliverable(cs[0]) && Filter(cs[1..]) == [] ensures !Deliverable(cs[i]) {
          if i > 0 { assert cs[i] == cs[1..][i - 1]; }
        }
      }
    }
  }

  /** A failure while creating the chat or sending the message delivers the error notice and nothing else. */
  lemma ImmediateFailureDeliversOnlyNotice(chunks: seq<Option<string>>)
    ensures Delivered(VendorStream(chunks, Some(0))) == [ErrorNotice]
  {
    assert chunks[..0] == [];
  }
}
