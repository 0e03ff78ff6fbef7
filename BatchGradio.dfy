/**
 * `generate_batch` of the Gradio front end: split the prompt text into
 * prompts, wrap each with the front and back text, send one request per
 * prompt, and sort the replies into images, metadata and error messages.
 */
module BatchGradio {
  import opened Wrappers
  import opened Text

  /** The characters `.strip(", ")` removes from a composed prompt. */
  const PromptTrim: set<char> := {',', ' '}

  /** A decoded image; decoding itself is not modelled. */
  datatype Image = Image(encoded: string)

  /**
   * What one request to the controller yields: an exception (connection,
   * HTTP status, JSON or image decoding) with its message, or the JSON
   * object's top-level fields, each as JSON text.
   */
  datatype Reply = Raised(message: string) | Received(data: map<string, string>)

  /** One entry of `results`: the image, or none, and the metadata or error text. */
  datatype Slot = Slot(image: Option<Image>, text: string)

  // ---------------------------------------------------------------------
  // Prompt preparation

  predicate Clean(p: string, cs: set<char>)
  {
    p != [] && p[0] !in cs && p[|p| - 1] !in cs
  }

  /** `[l.strip() for l in lines if l.strip()]`. */
  function NonBlankStripped(lines: seq<string>): (r: seq<string>)
    ensures |r| <= |lines|
    ensures forall i :: 0 <= i < |r| ==> Clean(r[i], Whitespace)
  {
    if lines == [] then []
    else
      var head := Strip(lines[0], Whitespace);
      (if head == [] then [] else [head]) + NonBlankStripped(lines[1..])
  }

  /** Order is kept: the prompts of two blocks of lines are those of the first block, then those of the second. */
  lemma {:induction false} NonBlankStrippedAppend(a: seq<string>, b: seq<string>)
    ensures NonBlankStripped(a + b) == NonBlankStripped(a) + NonBlankStripped(b)
  {
    if a == [] {
      assert a + b == b;
    } else {
      var head := Strip(a[0], Whitespace);
      var first := if head == [] then [] else [head];
      assert (a + b)[0] == a[0];
      assert (a + b)[1..] == a[1..] + b;
      NonBlankStrippedAppend(a[1..], b);
      calc {
        NonBlankStripped(a + b);
        first + NonBlankStripped(a[1..] + b);
        first + (NonBlankStripped(a[1..]) + NonBlankStripped(b));
        (first + NonBlankStripped(a[1..])) + NonBlankStripped(b);
        NonBlankStripped(a) + NonBlankStripped(b);
      }
    }
  }

  /** A single line contributes its stripped text, or nothing when it is blank. */
  lemma NonBlankStrippedLine(line: string)
    ensures NonBlankStripped([line]) == if Strip(line, Whitespace) == [] then [] else [Strip(line, Whitespace)]
  {
    assert [line][1..] == [];
  }

  /** `prompts_raw`: the non-blank lines of the text, stripped, in order. */
  function PromptsRaw(promptText: string): (r: seq<string>)
    ensures forall i :: 0 <= i < |r| ==> Clean(r[i], Whitespace)
  {
    NonBlankStripped(SplitLines(Strip(promptText, Whitespace)))
  }

  /** `f"{front}, {p}, {back}".strip(", ")`. */
  function Compose(front: string, p: string, back: string): (r: string)
    ensures r != [] ==> r[0] !in PromptTrim && r[|r| - 1] !in PromptTrim
  {
    Strip(front + ", " + p + ", " + back, PromptTrim)
  }

  /** `prompts`: one composed prompt per raw prompt. */
  function Prompts(raw: seq<string>, front: string, back: string): (r: seq<string>)
    ensures |r| == |raw|
    ensures forall i :: 0 <= i < |r| ==> r[i] != [] ==> r[i][0] !in PromptTrim && r[i][|r[i]| - 1] !in PromptTrim
  {
    seq(|raw|, i requires 0 <= i < |raw| => Compose(front, raw[i], back))
  }

  /** Without front and back text, a prompt that does not start or end with a comma is sent as it is. */
  lemma ComposeBare(p: string)
    requires Clean(p, Whitespace) && p[0] != ',' && p[|p| - 1] != ','
    ensures Compose("", p, "") == p
  {
    assert "" + ", " + p + ", " + "" == ", " + p + ", ";
    StripUnique(", ", p, ", ", PromptTrim);
  }

  /** With front and back text that have no leading or trailing comma or space, they are joined to the prompt with ", ". */
  lemma ComposeJoined(front: string, p: string, back: string)
    requires Clean(front, PromptTrim) && Clean(back, PromptTrim)
    ensures Compose(front, p, back) == front + ", " + p + ", " + back
  {
    var s := front + ", " + p + ", " + back;
    assert s[0] == front[0] && s[|s| - 1] == back[|back| - 1];
    assert [] + s + [] == s;
    StripUnique([], s, [], PromptTrim);
  }

  // ---------------------------------------------------------------------
  // Results

  /** What `send` stores for one prompt and its reply. */
  function SlotFor(prompt: string, reply: Reply): (slot: Slot)
  {
    match reply
    case Raised(e) => Slot(None, "Error for prompt '" + prompt + "': " + e)
    case Received(data) =>
      if "image" in data && "metadata" in data then Slot(Some(Image(data["image"])), data["metadata"])
      else Slot(None, "Missing fields for prompt: " + prompt)
  }

  /** A slot without an image always carries a non-empty message naming its prompt's failure. */
  lemma SlotForError(prompt: string, reply: Reply)
    ensures SlotFor(prompt, reply).image.None? <==>
      reply.Raised? || !("image" in reply.data && "metadata" in reply.data)
    ensures SlotFor(prompt, reply).image.None? ==> SlotFor(prompt, reply).text != []
    ensures SlotFor(prompt, reply).image.Some? ==> SlotFor(prompt, reply).text == reply.data["metadata"]
  {
  }

  /** `images = [r[0] for r in results if r[0] is not None]`. */
  function Images(slots: seq<Slot>): (images: seq<Image>)
  {
    if slots == [] then []
    else (if slots[0].image.Some? then [slots[0].image.value] else []) + Images(slots[1..])
  }

  /** `metadata = [r[1] for r in results if r[0] is not None]`. */
  function Metadata(slots: seq<Slot>): (metadata: seq<string>)
  {
    if slots == [] then []
    else (if slots[0].image.Some? then [slots[0].text] else []) + Metadata(slots[1..])
  }

  /** `errors = [r[1] for r in results if r[0] is None]`. */
  function Errors(slots: seq<Slot>): (errors: seq<string>)
  {
    if slots == [] then []
    else (if slots[0].image.None? then [slots[0].text] else []) + Errors(slots[1..])
  }

  /** Every slot lands in exactly one side: with its metadata beside its image, or among the errors. */
  lemma {:induction false} PartitionSizes(slots: seq<Slot>)
    ensures |Images(slots)| == |Metadata(slots)|
    ensures |Images(slots)| + |Errors(slots)| == |slots|
  {
    if slots != [] {
      PartitionSizes(slots[1..]);
    }
  }

  /** Each list keeps the relative order of its prompts: the images of two blocks of slots are those of the first, then the second. */
  lemma {:induction false} ImagesAppend(a: seq<Slot>, b: seq<Slot>)
    ensures Images(a + b) == Images(a) + Images(b)
  {
    if a == [] {
      assert a + b == b;
    } else {
      var first := if a[0].image.Some? then [a[0].image.value] else [];
      assert (a + b)[0] == a[0];
      assert (a + b)[1..] == a[1..] + b;
      ImagesAppend(a[1..], b);
      calc {
        Images(a + b);
        first + Images(a[1..] + b);
        first + (Images(a[1..]) + Images(b));
        (first + Images(a[1..])) + Images(b);
        Images(a) + Images(b);
      }
    }
  }

  lemma {:induction false} MetadataAppend(a: seq<Slot>, b: seq<Slot>)
    ensures Metadata(a + b) == Metadata(a) + Metadata(b)
  {
    if a == [] {
      assert a + b == b;
    } else {
      var first := if a[0].image.Some? then [a[0].text] else [];
      assert (a + b)[0] == a[0];
      assert (a + b)[1..] == a[1..] + b;
      MetadataAppend(a[1..], b);
      calc {
        Metadata(a + b);
        first + Metadata(a[1..] + b);
        first + (Metadata(a[1..]) + Metadata(b));
        (first + Metadata(a[1..])) + Metadata(b);
        Metadata(a) + Metadata(b);
      }
    }
  }

  lemma {:induction false} ErrorsAppend(a: seq<Slot>, b: seq<Slot>)
    ensures Errors(a + b) == Errors(a) + Errors(b)
  {
    if a == [] {
      assert a + b == b;
    } else {
      var first := if a[0].image.None? then [a[0].text] else [];
      assert (a + b)[0] == a[0];
      assert (a + b)[1..] == a[1..] + b;
      ErrorsAppend(a[1..], b);
      calc {
        Errors(a + b);
        first + Errors(a[1..] + b);
        first + (Errors(a[1..]) + Errors(b));
        (first + Errors(a[1..])) + Errors(b);
        Errors(a) + Errors(b);
      }
    }
  }

  /** Image i and metadata entry i come from the same prompt. */
  lemma {:induction false} PartitionPairs(slots: seq<Slot>, i: nat)
    requires i < |Images(slots)|
    ensures |Images(slots)| == |Metadata(slots)|
    ensures exists j :: 0 <= j < |slots| && slots[j].image == Some(Images(slots)[i]) && slots[j].text == Metadata(slots)[i]
  {
    PartitionSizes(slots);
    if slots[0].image.Some? && i == 0 {
      assert slots[0].image == Some(Images(slots)[0]);
    } else {
      var k := if slots[0].image.Some? then i - 1 else i;
      PartitionPairs(slots[1..], k);
      var j :| 0 <= j < |slots[1..]| && slots[1..][j].image == Some(Images(slots[1..])[k]) && slots[1..][j].text == Metadata(slots[1..])[k];
      assert slots[j + 1] == slots[1..][j];
    }
  }

  /** The slots of all prompts, slot i holding prompt i's reply. */
  function Slots(prompts: seq<string>, replies: seq<Reply>): (r: seq<Slot>)
    requires |replies| == |prompts|
    ensures |r| == |prompts|
  {
    seq(|prompts|, i requires 0 <= i < |prompts| => SlotFor(prompts[i], replies[i]))
  }

  /** The error text is empty exactly when no prompt failed. */
  lemma {:induction false} ErrorTextEmpty(prompts: seq<string>, replies: seq<Reply>)
    requires |replies| == |prompts|
    ensures Join('\n', Errors(Slots(prompts, replies))) == [] <==> |Errors(Slots(prompts, replies))| == 0
  {
    var slots := Slots(prompts, replies);
    forall j | 0 <= j < |slots| ensures slots[j].image.None? ==> slots[j].text != [] {
      SlotForError(prompts[j], replies[j]);
    }
    ErrorsNonEmpty(slots);
    var errs := Errors(slots);
    if |errs| > 0 {
      JoinStartsWith(errs);
    }
  }

  lemma {:induction false} ErrorsNonEmpty(slots: seq<Slot>)
    requires forall j :: 0 <= j < |slots| ==> slots[j].image.None? ==> slots[j].text != []
    ensures forall i :: 0 <= i < |Errors(slots)| ==> Errors(slots)[i] != []
  {
    if slots != [] {
      ErrorsNonEmpty(slots[1..]);
    }
  }

  lemma JoinStartsWith(parts: seq<string>)
    requires |parts| > 0 && parts[0] != []
    ensures Join('\n', parts) != []
  {
    if |parts| > 1 {
      assert Join('\n', parts) == parts[0] + ['\n'] + Join('\n', parts[1..]);
    }
  }

  /** The error lines can be recovered from the error text when no message contains a line break. */
  lemma ErrorTextLines(slots: seq<Slot>)
    requires |Errors(slots)| > 0
    requires forall i :: 0 <= i < |Errors(slots)| ==> '\n' !in Errors(slots)[i]
    ensures Split(Join('\n', Errors(slots)), '\n') == Errors(slots)
  {
    SplitJoin(Errors(slots), '\n');
  }

  /**
   * The `send` calls: a results list with one empty slot per prompt, each
   * slot then written once, with its own prompt's reply.
   */
  method FillResults(prompts: seq<string>, replies: seq<Reply>) returns (slots: seq<Slot>)
    requires |replies| == |prompts|
    ensures slots == Slots(prompts, replies)
  {
    var results := new Option<Slot>[|prompts|](_ => None);
    var i := 0;
    while i < |prompts|
      invariant 0 <= i <= |prompts|
      invariant forall j :: 0 <= j < i ==> results[j] == Some(SlotFor(prompts[j], replies[j]))
      invariant forall j :: i <= j < |prompts| ==> results[j] == None
    {
      results[i] := Some(SlotFor(prompts[i], replies[i]));
      i := i + 1;
    }
    // Every slot has been written, so the placeholder below is never read.
    slots := seq(|prompts|, j requires 0 <= j < |prompts| reads results =>
      if results[j].Some? then results[j].value else Slot(None, ""));
  }

  /**
   * `generate_batch`: prepare the prompts, fill one result slot per prompt
   * from its reply, and return the images, the metadata and the error
   * messages joined by line breaks. `replies[i]` is what the request for
   * prompt i yields.
   */
  method GenerateBatch(promptText: string, front: string, back: string, replies: seq<Reply>)
    returns (images: seq<Image>, metadata: seq<string>, errorText: string)
    requires |replies| == |Prompts(PromptsRaw(promptText), front, back)|
    ensures var slots := Slots(Prompts(PromptsRaw(promptText), front, back), replies);
      && images == Images(slots)
      && metadata == Metadata(slots)
      && errorText == Join('\n', Errors(slots))
  {
    var promptsRaw := PromptsRaw(promptText);
    var prompts := Prompts(promptsRaw, front, back);
    var slots := FillResults(prompts, replies);
    images := Images(slots);
    metadata := Metadata(slots);
    errorText := Join('\n', Errors(slots));
  }
}
