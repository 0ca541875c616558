/** `detect_crypto_backend`: which of the two encryption tools to use,
    asking the user when both are installed. */
module Detect {
  import opened Wrappers
  import opened Text
  import opened Machine

  function Quoted(tool: string): string { "`" + tool + "`" }

  function InstallHints(first: string, second: string): string {
    " is installed. Please install one:\n"
    + "- " + first + ": https://github.com/str4d/rage\n"
    + "- " + second + ":  https://github.com/FiloSottile/age"
  }

  /** The message for a machine with neither tool, for the two tool names. */
  function NeitherMessage(first: string, second: string): string {
    "❌ Neither " + Quoted(first) + " nor " + Quoted(second) + InstallHints(first, second)
  }

  const NeitherInstalled: string := NeitherMessage("rage", "age")
  const BothBanner: string := "🛠 Both `rage` and `age` are installed.\n"
  const Question: string := "👉 Which do you want to use? [rage/age]: "
  const Complaint: string := "❓ Please type either 'rage' or 'age'.\n"

  /** How detection ends. Standard input is a finite list of inputs here;
      once it is used up every read gives an empty line, which the program
      keeps rejecting without end: that is `Spins`. */
  datatype Verdict = Decided(result: Result<string>) | Spins

  /** The answer a line read from the terminal gives, if it is one. */
  function Choice(input: string): (r: Option<string>)
    ensures r.Some? ==> r.value == "rage" || r.value == "age"
    ensures r.Some? <==> ToLower(Trim(input)) == "rage" || ToLower(Trim(input)) == "age"
  {
    var answer := ToLower(Trim(input));
    if answer == "rage" then Some("rage")
    else if answer == "age" then Some("age")
    else None
  }

  /** What a read that came back contributes to the choice. */
  function ReadChoice(read: Result<string>): Option<string> {
    if read.Ok? then Choice(read.value) else None
  }

  /** The answer each read gives. */
  function Answers(inputs: seq<Result<string>>): (r: seq<Option<string>>)
    ensures |r| == |inputs| && forall j | 0 <= j < |inputs| :: r[j] == ReadChoice(inputs[j])
  {
    seq(|inputs|, j requires 0 <= j < |inputs| => ReadChoice(inputs[j]))
  }

  /** The position of the first answer there is. */
  function FirstSome(xs: seq<Option<string>>): (r: Option<nat>)
    ensures r.Some? ==> r.value < |xs| && xs[r.value].Some?
    ensures r.Some? ==> forall j | 0 <= j < r.value :: xs[j].None?
    ensures r.None? ==> forall j | 0 <= j < |xs| :: xs[j].None?
  {
    if xs == [] then None
    else if xs[0].Some? then Some(0)
    else match FirstSome(xs[1..])
      case None => None
      case Some(i) => Some(i + 1)
  }

  /** What the table and the input loop decide, for the two installation
      facts and the answers the reads from standard input give. */
  function Decide(hasRage: bool, hasAge: bool, answers: seq<Option<string>>): Verdict {
    if !hasRage && !hasAge then Decided(Err(NeitherInstalled))
    else if hasRage && !hasAge then Decided(Ok("rage"))
    else if !hasRage && hasAge then Decided(Ok("age"))
    else match FirstSome(answers)
      case None => Spins
      case Some(i) => Decided(Ok(answers[i].value))
  }

  /** `Decide` for the reads standard input will give. */
  function Detection(hasRage: bool, hasAge: bool, inputs: seq<Result<string>>): Verdict {
    Decide(hasRage, hasAge, Answers(inputs))
  }

  /** What the loop prints for each read that did not settle the question. */
  function Rejections(inputs: seq<Result<string>>): seq<Event> {
    if inputs == [] then []
    else
      var last := inputs[|inputs| - 1];
      Rejections(inputs[..|inputs| - 1]) + [Stderr(Question)] + (if last.Ok? then [Stderr(Complaint)] else [])
  }

  /** Every Ok answer names one of the two tools, and the error names both. */
  lemma DetectionNamesATool(hasRage: bool, hasAge: bool, inputs: seq<Result<string>>)
    ensures Detection(hasRage, hasAge, inputs).Decided? && Detection(hasRage, hasAge, inputs).result.Ok? ==>
      Detection(hasRage, hasAge, inputs).result.value in {"rage", "age"}
    ensures Detection(hasRage, hasAge, inputs) == Decided(Err(NeitherInstalled)) <==> !hasRage && !hasAge
  {
  }

  /** The error for a machine with neither tool names both. */
  lemma NeitherNamesBoth(first: string, second: string)
    ensures Contains(NeitherMessage(first, second), Quoted(first))
    ensures Contains(NeitherMessage(first, second), Quoted(second))
  {
    var m := NeitherMessage(first, second);
    var tail := InstallHints(first, second);
    assert m == "❌ Neither " + Quoted(first) + (" nor " + Quoted(second) + tail);
    ContainsMiddle("❌ Neither ", Quoted(first), " nor " + Quoted(second) + tail);
    assert m == ("❌ Neither " + Quoted(first) + " nor ") + Quoted(second) + tail;
    ContainsMiddle("❌ Neither " + Quoted(first) + " nor ", Quoted(second), tail);
  }

  /** Reads that are not an answer (rejected lines or failed reads) in
      front of the input change nothing about the outcome. */
  lemma IgnoredReads(junk: seq<Result<string>>, inputs: seq<Result<string>>)
    requires forall j | 0 <= j < |junk| :: ReadChoice(junk[j]).None?
    ensures Detection(true, true, junk + inputs) == Detection(true, true, inputs)
  {
    var all, front, back := Answers(junk + inputs), Answers(junk), Answers(inputs);
    assert all == front + back by {
      forall j | 0 <= j < |all| ensures all[j] == (front + back)[j] {
        if j < |junk| {
          assert (junk + inputs)[j] == junk[j];
        } else {
          assert (junk + inputs)[j] == inputs[j - |junk|];
        }
      }
    }
    SkipNones(front, back);
  }

  /** Answers that are missing in front of the others do not change the
      first one, only its position. */
  lemma {:induction false} SkipNones(none: seq<Option<string>>, xs: seq<Option<string>>)
    requires forall j | 0 <= j < |none| :: none[j].None?
    ensures FirstSome(xs).Some? ==> FirstSome(none + xs) == Some(|none| + FirstSome(xs).value)
    ensures FirstSome(xs).None? ==> FirstSome(none + xs).None?
    ensures Decide(true, true, none + xs) == Decide(true, true, xs)
  {
    if none != [] {
      SkipNones(none[1..], xs);
      assert (none + xs)[1..] == none[1..] + xs;
    } else {
      assert none + xs == xs;
    }
    if FirstSome(xs).Some? {
      assert (none + xs)[|none| + FirstSome(xs).value] == xs[FirstSome(xs).value];
    }
  }

  /** One round of the loop: prompt, read a line, and complain about a line
      that was read but is not an answer. */
  method Ask(h: Host) returns (answer: Option<string>)
    requires h.stdin != []
    modifies h
    ensures h.fs == old(h.fs) && h.stdin == old(h.stdin)[1..]
    ensures answer == ReadChoice(old(h.stdin)[0])
    ensures answer.Some? ==> h.trace == old(h.trace) + [Stderr(Question)]
    ensures answer.None? ==> h.trace == old(h.trace) + Rejections([old(h.stdin)[0]])
  {
    ghost var t0 := h.trace;
    RejectedOnce(h.stdin[0]);
    h.Eprint(Question);
    var input := h.ReadLine();
    answer := None;
    if input.Ok? {
      answer := Choice(input.value);
      if answer.None? {
        h.Eprint(Complaint);
        AppendAssoc(t0, [Stderr(Question)], [Stderr(Complaint)]);
      }
    }
  }

  lemma RejectedOnce(input: Result<string>)
    ensures Rejections([input]) == [Stderr(Question)] + (if input.Ok? then [Stderr(Complaint)] else [])
  {
    assert [input][..0] == [];
  }

  /** The inputs the question loop leaves unread: those after the first
      answer, or none when no answer comes. */
  function Unread(inputs: seq<Result<string>>): seq<Result<string>> {
    match FirstSome(Answers(inputs))
    case Some(i) => inputs[i + 1..]
    case None => []
  }

  /** What the question loop prints: a question and a complaint for each
      rejected line, a question for a failed read, and a last question
      before the answer. */
  function AskEvents(inputs: seq<Result<string>>): seq<Event> {
    match FirstSome(Answers(inputs))
    case Some(i) => Rejections(inputs[..i]) + [Stderr(Question)]
    case None => Rejections(inputs)
  }

  /** `detect_crypto_backend`. With at most one tool installed the table
      decides and nothing is read or printed; with both, the user is asked. */
  method DetectBackend(h: Host, hasRage: bool, hasAge: bool) returns (v: Verdict)
    modifies h
    ensures h.fs == old(h.fs)
    ensures v == Detection(hasRage, hasAge, old(h.stdin))
    ensures !(hasRage && hasAge) ==> h.stdin == old(h.stdin) && h.trace == old(h.trace)
    ensures hasRage && hasAge ==>
      h.stdin == Unread(old(h.stdin)) && h.trace == old(h.trace) + [Stderr(BothBanner)] + AskEvents(old(h.stdin))
  {
    if !hasRage && !hasAge {
      return Decided(Err(NeitherInstalled));
    } else if hasRage && !hasAge {
      return Decided(Ok("rage"));
    } else if !hasRage && hasAge {
      return Decided(Ok("age"));
    }
    h.Eprint(BothBanner);
    v := AskUntilAnswered(h);
  }

  /** The loop of the both-installed case: prompt on stderr, read a line,
      return on a valid answer, and otherwise complain (after a line that
      was read) and ask again. */
  method AskUntilAnswered(h: Host) returns (v: Verdict)
    modifies h
    ensures h.fs == old(h.fs)
    ensures v == Decide(true, true, Answers(old(h.stdin)))
    ensures h.stdin == Unread(old(h.stdin)) && h.trace == old(h.trace) + AskEvents(old(h.stdin))
  {
    ghost var inputs := h.stdin;
    ghost var n := 0;
    while h.stdin != []
      invariant 0 <= n <= |inputs| && h.stdin == inputs[n..] && h.fs == old(h.fs)
      invariant forall j | 0 <= j < n :: ReadChoice(inputs[j]).None?
      invariant h.trace == old(h.trace) + Rejections(inputs[..n])
      decreases |h.stdin|
    {
      var answer := Ask(h);
      assert answer == ReadChoice(inputs[n]);
      if answer.Some? {
        AnsweredAt(inputs, n);
        AppendAssoc(old(h.trace), Rejections(inputs[..n]), [Stderr(Question)]);
        return Decided(Ok(answer.value));
      }
      RejectionsSnoc(inputs, n);
      AppendAssoc(old(h.trace), Rejections(inputs[..n]), Rejections([inputs[n]]));
      n := n + 1;
    }
    assert inputs[..n] == inputs;
    NeverAnswered(inputs);
    return Spins;
  }

  lemma RejectionsSnoc(inputs: seq<Result<string>>, n: nat)
    requires n < |inputs|
    ensures Rejections(inputs[..n + 1]) == Rejections(inputs[..n]) + Rejections([inputs[n]])
  {
    assert inputs[..n + 1][..n] == inputs[..n];
    assert [inputs[n]][..0] == [];
  }

  /** An answer after missing ones is the first. */
  lemma FirstAt(answers: seq<Option<string>>, n: nat)
    requires n < |answers| && answers[n].Some?
    requires forall j | 0 <= j < n :: answers[j].None?
    ensures FirstSome(answers) == Some(n)
    ensures Decide(true, true, answers) == Decided(Ok(answers[n].value))
  {
    SkipNones(answers[..n], answers[n..]);
    assert answers[..n] + answers[n..] == answers;
  }

  lemma NoneFirst(answers: seq<Option<string>>)
    requires forall j | 0 <= j < |answers| :: answers[j].None?
    ensures FirstSome(answers).None? && Decide(true, true, answers) == Spins
  {
  }

  /** The loop's exit on the first answer, at position `n`. */
  lemma AnsweredAt(inputs: seq<Result<string>>, n: nat)
    requires n < |inputs| && ReadChoice(inputs[n]).Some?
    requires forall j | 0 <= j < n :: ReadChoice(inputs[j]).None?
    ensures Decide(true, true, Answers(inputs)) == Decided(Ok(ReadChoice(inputs[n]).value))
    ensures Unread(inputs) == inputs[n + 1..]
    ensures AskEvents(inputs) == Rejections(inputs[..n]) + [Stderr(Question)]
  {
    FirstAt(Answers(inputs), n);
  }

  /** The loop's exit when standard input runs out without an answer. */
  lemma NeverAnswered(inputs: seq<Result<string>>)
    requires forall j | 0 <= j < |inputs| :: ReadChoice(inputs[j]).None?
    ensures Decide(true, true, Answers(inputs)) == Spins
    ensures Unread(inputs) == [] && AskEvents(inputs) == Rejections(inputs)
  {
    NoneFirst(Answers(inputs));
  }
}
