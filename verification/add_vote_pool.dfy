/**
 * The "Create New Vote" form: the option inputs, grown one at a time and
 * edited by id, and the checks and request body of its submit handler.
 */
module AddVotePool {
  import opened Wrappers
  import opened Text
  import opened Collections

  /** One option input: its id and its current text. */
  datatype FormOption = FormOption(id: int, value: string)

  /** The ids run 1, 2, 3, ... in list order. */
  predicate SequentialIds(options: seq<FormOption>) {
    forall i :: 0 <= i < |options| ==> options[i].id == i + 1
  }

  /** The form opens with two empty inputs, numbered 1 and 2. */
  function InitialOptions(): (options: seq<FormOption>)
    ensures |options| == 2 && SequentialIds(options)
    ensures forall i :: 0 <= i < |options| ==> options[i].value == ""
  {
    [FormOption(1, ""), FormOption(2, "")]
  }

  /** `addOption`: the existing inputs untouched, then an empty one numbered one past the length. */
  function AddOption(prev: seq<FormOption>): (next: seq<FormOption>)
    ensures |next| == |prev| + 1 && next[..|prev|] == prev && next[|prev|].value == ""
    ensures SequentialIds(prev) ==> SequentialIds(next)
  {
    prev + [FormOption(|prev| + 1, "")]
  }

  /** `updateOption`: same inputs, same order; those carrying `id` get the new text, the rest are unchanged. */
  function UpdateOption(prev: seq<FormOption>, id: int, val: string): (next: seq<FormOption>)
    ensures |next| == |prev|
    ensures forall i :: 0 <= i < |prev| ==> next[i].id == prev[i].id
    ensures forall i :: 0 <= i < |prev| ==> next[i].value == if prev[i].id == id then val else prev[i].value
  {
    Map(prev, (o: FormOption) => if o.id == id then o.(value := val) else o)
  }

  /**
   * With sequential ids an update edits exactly the input at position id - 1,
   * or nothing when no input has that id, and the ids stay sequential.
   */
  lemma UpdateOptionAt(prev: seq<FormOption>, id: int, val: string)
    requires SequentialIds(prev)
    ensures SequentialIds(UpdateOption(prev, id, val))
    ensures 1 <= id <= |prev| ==> UpdateOption(prev, id, val) == prev[id - 1 := FormOption(id, val)]
    ensures !(1 <= id <= |prev|) ==> UpdateOption(prev, id, val) == prev
  {
    var next := UpdateOption(prev, id, val);
    if 1 <= id <= |prev| {
      assert forall i :: 0 <= i < |prev| ==> next[i] == prev[id - 1 := FormOption(id, val)][i];
    } else {
      assert forall i :: 0 <= i < |prev| ==> next[i] == prev[i];
    }
  }

  /** A change the user makes to the option list. */
  datatype Edit = Add | Update(id: int, value: string)

  /** The option list after the given edits, applied in order to the initial list. */
  function Replay(edits: seq<Edit>): seq<FormOption> {
    if edits == [] then InitialOptions()
    else
      var prev := Replay(edits[..|edits| - 1]);
      match edits[|edits| - 1]
      case Add => AddOption(prev)
      case Update(id, value) => UpdateOption(prev, id, value)
  }

  function AddCount(edits: seq<Edit>): nat {
    if edits == [] then 0 else AddCount(edits[..|edits| - 1]) + (if edits[|edits| - 1].Add? then 1 else 0)
  }

  /** Whatever the user does, the ids stay 1..n and there are two inputs plus one per "Add option". */
  lemma {:induction false} ReplayKeepsSequentialIds(edits: seq<Edit>)
    ensures SequentialIds(Replay(edits))
    ensures |Replay(edits)| == 2 + AddCount(edits)
  {
    if edits != [] {
      ReplayKeepsSequentialIds(edits[..|edits| - 1]);
      match edits[|edits| - 1]
      case Add =>
      case Update(id, value) =>
        UpdateOptionAt(Replay(edits[..|edits| - 1]), id, value);
    }
  }

  /** An input counts as filled when its text is not blank after trimming. */
  predicate IsFilled(o: FormOption) {
    !IsBlank(o.value)
  }

  function TrimmedValue(o: FormOption): string {
    Trim(o.value)
  }

  /** `filledOptions.map(opt => opt.value.trim())`: each entry non-empty and trimmed. */
  function FilledValues(options: seq<FormOption>): (values: seq<string>)
    ensures |values| == |Filter(options, IsFilled)| <= |options|
    ensures forall i :: 0 <= i < |values| ==> values[i] != "" && IsTrimmed(values[i])
  {
    var filled := Filter(options, IsFilled);
    Map(filled, TrimmedValue)
  }

  /** The filled values of two lists one after the other are those of the first, then those of the second. */
  lemma FilledValuesAppend(a: seq<FormOption>, b: seq<FormOption>)
    ensures FilledValues(a + b) == FilledValues(a) + FilledValues(b)
  {
    FilterAppend(a, b, IsFilled);
    var fa, fb := Filter(a, IsFilled), Filter(b, IsFilled);
    assert Map(fa + fb, TrimmedValue) == Map(fa, TrimmedValue) + Map(fb, TrimmedValue);
  }

  /** A single input contributes its trimmed text when filled, and nothing when blank. */
  lemma FilledValuesOne(o: FormOption)
    ensures FilledValues([o]) == if IsFilled(o) then [Trim(o.value)] else []
  {
    assert [o][..0] == [];
  }

  /** Why the form refused to submit. */
  datatype SubmitError = MissingName | MissingEndDate | TooFewOptions

  /** The alert shown for each refusal. */
  function ErrorMessage(e: SubmitError): (msg: string)
    ensures "Please " <= msg && msg[|msg| - 1] == '.'
  {
    match e
    case MissingName => "Please enter vote name."
    case MissingEndDate => "Please select end date."
    case TooFewOptions => "Please provide at least 2 options."
  }

  /** Each refusal has its own alert text. */
  lemma ErrorMessagesDistinct(e1: SubmitError, e2: SubmitError)
    ensures ErrorMessage(e1) == ErrorMessage(e2) <==> e1 == e2
  {
    assert ErrorMessage(MissingName)[7] == 'e';
    assert ErrorMessage(MissingEndDate)[7] == 's';
    assert ErrorMessage(TooFewOptions)[7] == 'p';
  }

  /** The body of the create-vote request. */
  datatype VoteDto = VoteDto(name: string, voteOptions: seq<string>, lastValidDate: string)

  /**
   * `handleSubmit` up to the request: the name is checked first, then the end
   * date, then that at least two options are filled; only when all pass is a
   * request built, from the trimmed name and the trimmed filled options in
   * their original order.
   */
  function BuildVoteRequest(voteName: string, endDate: string, options: seq<FormOption>): (r: Result<VoteDto, SubmitError>)
    ensures r == Err(MissingName) <==> IsBlank(voteName)
    ensures r == Err(MissingEndDate) <==> !IsBlank(voteName) && endDate == ""
    ensures r == Err(TooFewOptions) <==> !IsBlank(voteName) && endDate != "" && |Filter(options, IsFilled)| < 2
    ensures r.Ok? ==> r.value.name == Trim(voteName) && r.value.name != "" && IsTrimmed(r.value.name)
    ensures r.Ok? ==> r.value.voteOptions == FilledValues(options) && |r.value.voteOptions| >= 2
    ensures r.Ok? ==> forall v :: v in r.value.voteOptions ==> v != "" && IsTrimmed(v)
    ensures r.Ok? ==> r.value.lastValidDate == endDate
  {
    if Trim(voteName) == "" then Err(MissingName)
    else if endDate == "" then Err(MissingEndDate)
    else
      var filled := Filter(options, IsFilled);
      if |filled| < 2 then Err(TooFewOptions)
      else Ok(VoteDto(Trim(voteName), Map(filled, TrimmedValue), endDate))
  }

  /** Submitting the form as it opens is refused for its blank options once a name and date are given. */
  lemma InitialFormNeedsOptions(voteName: string, endDate: string)
    requires !IsBlank(voteName) && endDate != ""
    ensures BuildVoteRequest(voteName, endDate, InitialOptions()) == Err(TooFewOptions)
  {
    var init := InitialOptions();
    BlankIffAllWhitespace(init[0].value);
    BlankIffAllWhitespace(init[1].value);
    assert init == [init[0]] + [init[1]];
    FilledValuesAppend([init[0]], [init[1]]);
    FilledValuesOne(init[0]);
    FilledValuesOne(init[1]);
  }
}
