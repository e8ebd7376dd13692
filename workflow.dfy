/** Workflow templating (handler.py:142-184): the choice of template file by
    style, and the textual substitution of the prompt and the uploaded image
    names into the serialised workflow. The workflow document is modelled as
    its serialised text; `json.loads` at the end is an injected parser. */
module Workflow {
  import opened Outcomes
  import opened Strings
  import opened JsonString

  const CouplesStyle: string := "couples"
  const CouplesFile: string := "workflow_couples.json"
  const SingleFile: string := "workflow_single.json"

  /** The placeholders a workflow template may hold. */
  datatype Placeholder = PromptSlot | Image1Slot | Image2Slot | Image3Slot

  function SlotText(p: Placeholder): (t: string)
    ensures |t| > 0
  {
    match p
    case PromptSlot => "PROMPT_PLACEHOLDER"
    case Image1Slot => "IMAGE1_PLACEHOLDER"
    case Image2Slot => "IMAGE2_PLACEHOLDER"
    case Image3Slot => "IMAGE3_PLACEHOLDER"
  }

  /** The template file of a style (handler.py:144-145): the couples template
      exactly for the style `couples`, the single template for every other
      style, unknown ones included. */
  function TemplateFile(styleId: string): (f: string)
    ensures f == CouplesFile <==> styleId == CouplesStyle
    ensures f == SingleFile <==> styleId != CouplesStyle
  {
    if styleId == CouplesStyle then CouplesFile else SingleFile
  }

  /** `load_workflow_template` (handler.py:142-149). `files` gives the text of
      each file under the image root, or None when it does not exist; the
      text is the serialised document. */
  function LoadTemplate(styleId: string, files: string -> Option<string>): (r: Outcome<string>)
    ensures r.Ok? <==> files("/" + TemplateFile(styleId)).Some?
    ensures r.Ok? ==> r.value == files("/" + TemplateFile(styleId)).value
    ensures r.Err? ==> r.msg == "[Errno 2] No such file or directory: '/" + TemplateFile(styleId) + "'"
  {
    var path := "/" + TemplateFile(styleId);
    match files(path)
    case None => Err("[Errno 2] No such file or directory: '" + path + "'")
    case Some(text) => Ok(text)
  }

  /** The message of the TypeError that `str.replace` raises for a None replacement. */
  const ReplaceNoneError: string := "replace() argument 2 must be str, not None"

  /** The text part of `prepare_workflow` (handler.py:161-183): the escaped
      prompt first, then the reference image for IMAGE1 and the first user
      image for IMAGE2, and, for couples only, the second user image for
      IMAGE3; a missing second image makes that last replace raise. */
  function Substitute(workflow: string, referenceName: string, user1Name: string,
                      user2Name: Option<string>, prompt: string, isCouples: bool): (r: Outcome<string>)
    ensures r.Err? <==> isCouples && user2Name.None?
    ensures r.Err? ==> r.msg == ReplaceNoneError
  {
    var w1 := ReplaceAll(workflow, SlotText(PromptSlot), EscapedPrompt(prompt));
    var w2 := ReplaceAll(w1, SlotText(Image1Slot), referenceName);
    var w3 := ReplaceAll(w2, SlotText(Image2Slot), user1Name);
    if isCouples then
      match user2Name
      case None => Err(ReplaceNoneError)
      case Some(name) => Ok(ReplaceAll(w3, SlotText(Image3Slot), name))
    else Ok(w3)
  }

  /** `prepare_workflow` (handler.py:152-184): the substitution, then
      `json.loads`, given as `loads` (None when the text parses, else the
      message of its error). */
  function PrepareWorkflow(workflow: string, referenceName: string, user1Name: string,
                           user2Name: Option<string>, prompt: string, isCouples: bool,
                           loads: string -> Option<string>): (r: Outcome<string>)
    ensures r.Ok? <==> (Substitute(workflow, referenceName, user1Name, user2Name, prompt, isCouples).Ok?
                        && loads(Substitute(workflow, referenceName, user1Name, user2Name, prompt, isCouples).value).None?)
    ensures r.Ok? ==> r == Substitute(workflow, referenceName, user1Name, user2Name, prompt, isCouples)
    // a failure carries the substitution's TypeError, or else the parser's message
    ensures r.Err? ==>
      var sub := Substitute(workflow, referenceName, user1Name, user2Name, prompt, isCouples);
      r.msg == (if sub.Err? then sub.msg else loads(sub.value).value)
  {
    match Substitute(workflow, referenceName, user1Name, user2Name, prompt, isCouples)
    case Err(m) => Err(m)
    case Ok(w) =>
      match loads(w)
      case Some(m) => Err(m)
      case None => Ok(w)
  }

  /** A view of a serialised template as literal text and placeholder slots. */
  datatype Piece = Lit(text: string) | Slot(slot: Placeholder)

  function PieceText(x: Piece): string {
    match x
    case Lit(t) => t
    case Slot(p) => SlotText(p)
  }

  function Render(t: seq<Piece>): string {
    if t == [] then [] else PieceText(t[0]) + Render(t[1..])
  }

  /** Every occurrence of `p`'s text in the rendered template starts at a
      `Slot(p)` piece: no literal, and no other slot, starts one (also not one
      that runs on into the following pieces). */
  predicate CleanFor(t: seq<Piece>, p: Placeholder) {
    t == [] ||
    ((t[0] == Slot(p) || forall i :: 0 <= i < |PieceText(t[0])| ==> !MatchAt(Render(t), i, SlotText(p)))
     && CleanFor(t[1..], p))
  }

  /** The template with every `Slot(p)` replaced by the literal `v`. */
  function Fill(t: seq<Piece>, p: Placeholder, v: string): (u: seq<Piece>)
    ensures |u| == |t|
    ensures forall i :: 0 <= i < |t| ==> u[i] == if t[i] == Slot(p) then Lit(v) else t[i]
  {
    if t == [] then [] else [if t[0] == Slot(p) then Lit(v) else t[0]] + Fill(t[1..], p, v)
  }

  /** Replace-all on a clean template fills exactly the slots of that
      placeholder and changes no other text. */
  lemma {:induction false} ReplaceFillsSlots(t: seq<Piece>, p: Placeholder, v: string)
    requires CleanFor(t, p)
    ensures ReplaceAll(Render(t), SlotText(p), v) == Render(Fill(t, p, v))
  {
    if t == [] {
    } else {
      ReplaceFillsSlots(t[1..], p, v);
      assert Fill(t, p, v)[1..] == Fill(t[1..], p, v);
      if t[0] == Slot(p) {
        ReplaceHit(Render(t[1..]), SlotText(p), v);
      } else {
        assert Render(t) == PieceText(t[0]) + Render(t[1..]);
        ReplaceSkip(PieceText(t[0]), Render(t[1..]), SlotText(p), v);
      }
    }
  }

  /** Single style: the prompt slots get the escaped prompt, IMAGE1 the
      reference image and IMAGE2 the user image; IMAGE3 slots and all literal
      text stay as they are, provided each stage's template is clean for the
      placeholder it replaces. */
  lemma SingleFillsSlots(t: seq<Piece>, referenceName: string, user1Name: string,
                         user2Name: Option<string>, prompt: string)
    requires CleanFor(t, PromptSlot)
    requires CleanFor(Fill(t, PromptSlot, EscapedPrompt(prompt)), Image1Slot)
    requires CleanFor(Fill(Fill(t, PromptSlot, EscapedPrompt(prompt)), Image1Slot, referenceName), Image2Slot)
    ensures Substitute(Render(t), referenceName, user1Name, user2Name, prompt, false)
         == Ok(Render(Fill(Fill(Fill(t, PromptSlot, EscapedPrompt(prompt)), Image1Slot, referenceName), Image2Slot, user1Name)))
  {
    var t1 := Fill(t, PromptSlot, EscapedPrompt(prompt));
    var t2 := Fill(t1, Image1Slot, referenceName);
    ReplaceFillsSlots(t, PromptSlot, EscapedPrompt(prompt));
    ReplaceFillsSlots(t1, Image1Slot, referenceName);
    ReplaceFillsSlots(t2, Image2Slot, user1Name);
  }

  /** Couples style with a second user image: the three image slots get the
      reference image, the first and the second user image. */
  lemma CouplesFillsSlots(t: seq<Piece>, referenceName: string, user1Name: string,
                          user2Name: string, prompt: string)
    requires CleanFor(t, PromptSlot)
    requires CleanFor(Fill(t, PromptSlot, EscapedPrompt(prompt)), Image1Slot)
    requires CleanFor(Fill(Fill(t, PromptSlot, EscapedPrompt(prompt)), Image1Slot, referenceName), Image2Slot)
    requires CleanFor(Fill(Fill(Fill(t, PromptSlot, EscapedPrompt(prompt)), Image1Slot, referenceName), Image2Slot, user1Name), Image3Slot)
    ensures Substitute(Render(t), referenceName, user1Name, Some(user2Name), prompt, true)
         == Ok(Render(Fill(Fill(Fill(Fill(t, PromptSlot, EscapedPrompt(prompt)), Image1Slot, referenceName),
                                Image2Slot, user1Name), Image3Slot, user2Name)))
  {
    var t1 := Fill(t, PromptSlot, EscapedPrompt(prompt));
    var t2 := Fill(t1, Image1Slot, referenceName);
    var t3 := Fill(t2, Image2Slot, user1Name);
    ReplaceFillsSlots(t, PromptSlot, EscapedPrompt(prompt));
    ReplaceFillsSlots(t1, Image1Slot, referenceName);
    ReplaceFillsSlots(t2, Image2Slot, user1Name);
    ReplaceFillsSlots(t3, Image3Slot, user2Name);
  }

  /** Substitution is textual and ordered: a prompt that spells out an image
      placeholder has that text replaced by the image name in a later step. */
  lemma PromptTextIsSubstitutedLater(referenceName: string, user1Name: string)
    requires !Contains(referenceName, SlotText(Image2Slot))
    ensures Substitute(SlotText(PromptSlot), referenceName, user1Name, None, SlotText(Image1Slot), false)
         == Ok(referenceName)
  {
    var e := SlotText(Image1Slot);
    var pt := SlotText(PromptSlot);
    PlainTextEscapesToItself(e);
    ReplaceHit([], pt, e);
    assert pt + [] == pt;
    var w1 := ReplaceAll(pt, pt, EscapedPrompt(e));
    assert w1 == e;
    ReplaceHit([], e, referenceName);
    assert e + [] == e;
    var w2 := ReplaceAll(w1, e, referenceName);
    assert w2 == referenceName;
    ReplaceAbsent(referenceName, SlotText(Image2Slot), user1Name);
  }
}
