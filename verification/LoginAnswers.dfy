/** How interactive login reads what a person types: menus, yes-or-no questions, account names and pasted values. */
module LoginAnswers {
  import opened Basics
  import opened Characters
  import opened LoginLabels

  /** What the person at the terminal does next; `NoEcho` is a terminal that cannot hide a secret. */
  datatype Input = Typed(text: string) | EndOfInput | NoEcho

  function Rest(answers: seq<Input>): seq<Input> {
    if answers == [] then [] else answers[1..]
  }

  predicate Answers(answers: seq<Input>) {
    answers != [] && answers[0].Typed?
  }

  /** `later` is what is left of `answers` after some of them were read. */
  predicate Suffix(later: seq<Input>, answers: seq<Input>) {
    |later| <= |answers| && later == answers[|answers| - |later|..]
  }

  lemma SuffixOf(last: seq<Input>, later: seq<Input>, answers: seq<Input>)
    requires Suffix(last, later) && Suffix(later, answers)
    ensures Suffix(last, answers)
  {
  }

  // ---- Yes or no ----

  predicate Agrees(i: Input) {
    i.Typed? && Lower(Trim(i.text)) in {"y", "yes"}
  }

  /** Only the letter and the word agree, in either case, with any space around them. */
  lemma AgreesIff(i: Input)
    ensures Agrees(i) <==> (&& i.Typed?
                            && var t := Trim(i.text);
                            || (|t| == 1 && (t[0] == 'y' || t[0] == 'Y'))
                            || (&& |t| == 3 && (t[0] == 'y' || t[0] == 'Y') && (t[1] == 'e' || t[1] == 'E')
                                && (t[2] == 's' || t[2] == 'S')))
  {
    if i.Typed? {
      var t := Trim(i.text);
      if Agrees(i) {
        assert Lower(t)[0] == 'y' && (|t| == 3 ==> Lower(t)[1] == 'e' && Lower(t)[2] == 's');
      } else {
        assert |t| == 1 && (t[0] == 'y' || t[0] == 'Y') ==> Lower(t) == "y";
        assert |t| == 3 ==> Lower(t) == [Lower(t)[0], Lower(t)[1], Lower(t)[2]];
      }
    }
  }

  // ---- Menus ----

  function Picked(text: string, count: nat, fallback: nat): Option<nat> {
    if text == "" then Some(fallback) else
    match ParseNumber(text)
    case Some(n) => if 1 <= n <= count then Some(n - 1) else None
    case None => None
  }

  /** The option chosen within `tries` answers, if any, and the answers left. */
  function Menu(answers: seq<Input>, count: nat, fallback: nat, tries: nat): (r: (Option<nat>, seq<Input>))
    ensures fallback < count && r.0.Some? ==> r.0.value < count
    decreases tries
  {
    if tries == 0 then (None, answers)
    else if !Answers(answers) then (None, Rest(answers))
    else if Picked(Trim(answers[0].text), count, fallback).Some?
      then (Picked(Trim(answers[0].text), count, fallback), Rest(answers))
    else Menu(Rest(answers), count, fallback, tries - 1)
  }

  /** The answer names option `index`: by its printed number, or by its being blank. */
  predicate Names(i: Input, count: nat, fallback: nat, index: nat) {
    i.Typed? && if Trim(i.text) == "" then index == fallback
                else index < count && ParseNumber(Trim(i.text)) == Some(index + 1)
  }

  /** An answer after which the menu is asked again. */
  ghost predicate Unclear(i: Input, count: nat) {
    i.Typed? && Trim(i.text) != "" && forall n | 1 <= n <= count :: ParseNumber(Trim(i.text)) != Some(n)
  }

  /** Answer `k` is the first clear one, and names option `index`. */
  ghost predicate FirstNames(answers: seq<Input>, count: nat, fallback: nat, index: nat, k: nat) {
    && k < |answers| && Names(answers[k], count, fallback, index)
    && (forall j | 0 <= j < k :: Unclear(answers[j], count))
  }

  lemma FirstNamesShift(answers: seq<Input>, count: nat, fallback: nat, index: nat, k: nat)
    requires answers != [] && k > 0
    ensures FirstNames(answers, count, fallback, index, k) <==>
              Unclear(answers[0], count) && FirstNames(answers[1..], count, fallback, index, k - 1)
  {
    hide Unclear, Names;
    var rest := answers[1..];
    if FirstNames(rest, count, fallback, index, k - 1) && Unclear(answers[0], count) {
      forall j | 0 <= j < k ensures Unclear(answers[j], count) {
        if j > 0 { assert rest[j - 1] == answers[j]; }
      }
    }
  }

  lemma PickedNames(i: Input, count: nat, fallback: nat, index: nat)
    requires i.Typed?
    ensures Names(i, count, fallback, index) <==> Picked(Trim(i.text), count, fallback) == Some(index)
    ensures Unclear(i, count) <==> Picked(Trim(i.text), count, fallback).None?
  {
    hide ParseNumber, Trim;
    var n := ParseNumber(Trim(i.text));
  }

  /**
   * A menu gives option `index` exactly if that is what the first clear one of the first `tries` answers names. What
   * comes after that answer is left for later.
   */
  lemma {:induction false} MenuIff(answers: seq<Input>, count: nat, fallback: nat, tries: nat, index: nat)
    ensures Menu(answers, count, fallback, tries).0 == Some(index) <==>
              exists k: nat | k < tries :: FirstNames(answers, count, fallback, index, k)
    ensures forall k: nat | k < tries && FirstNames(answers, count, fallback, index, k) ::
              Menu(answers, count, fallback, tries).1 == answers[k + 1..]
    decreases tries
  {
    hide Names, Unclear, Picked;
    if tries > 0 && Answers(answers) {
      var rest := answers[1..];
      PickedNames(answers[0], count, fallback, index);
      forall k: nat | 0 < k < tries && k < |answers|
        ensures FirstNames(answers, count, fallback, index, k) <==>
                  Unclear(answers[0], count) && FirstNames(rest, count, fallback, index, k - 1)
        ensures answers[k + 1..] == rest[k..]
      {
        FirstNamesShift(answers, count, fallback, index, k);
      }
      if Picked(Trim(answers[0].text), count, fallback).Some? {
        assert FirstNames(answers, count, fallback, index, 0) <==> Names(answers[0], count, fallback, index);
      } else {
        MenuIff(rest, count, fallback, tries - 1, index);
        forall k: nat | k < tries - 1 && FirstNames(rest, count, fallback, index, k)
          ensures FirstNames(answers, count, fallback, index, k + 1)
        {
        }
        assert !FirstNames(answers, count, fallback, index, 0);
      }
    } else if tries > 0 && answers != [] {
      assert !Unclear(answers[0], count) && !Names(answers[0], count, fallback, index) by {
        NotTyped(answers[0], count, fallback, index);
      }
    }
  }

  lemma NotTyped(i: Input, count: nat, fallback: nat, index: nat)
    requires !i.Typed?
    ensures !Unclear(i, count) && !Names(i, count, fallback, index)
  {
  }

  lemma PrintedTrims(n: nat)
    ensures Trim(Decimal(n)) == Decimal(n)
  {
    var s := Decimal(n);
    assert IsDigit(s[0]) && IsDigit(s[|s| - 1]);
  }

  /** Typing the number printed beside an option picks that option. */
  lemma PrintedNumberPicks(index: nat, rest: seq<Input>, count: nat, fallback: nat, tries: nat)
    requires index < count <= LARGEST_USIZE && tries > 0
    ensures Menu([Typed(Decimal(index + 1))] + rest, count, fallback, tries) == (Some(index), rest)
  {
    PrintedTrims(index + 1);
    ParsesPrinted(index + 1);
  }

  // ---- Account names ----

  /** The name settled on within `tries` answers, if any, and the answers left. */
  function LabelRead(answers: seq<Input>, proposed: string, tries: nat): (Option<string>, seq<Input>)
    decreases tries
  {
    if tries == 0 then (None, answers)
    else if !Answers(answers) then (None, Rest(answers))
    else if Trim(answers[0].text) == "" then (Some(proposed), Rest(answers))
    else if !AnyUnsafe(Trim(answers[0].text)) then (Some(Trim(answers[0].text)), Rest(answers))
    else LabelRead(Rest(answers), proposed, tries - 1)
  }

  predicate Labels(i: Input, proposed: string, name: string) {
    i.Typed? && if Trim(i.text) == "" then name == proposed else name == Trim(i.text) && !AnyUnsafe(name)
  }

  predicate Unusable(i: Input) {
    i.Typed? && AnyUnsafe(Trim(i.text))
  }

  /** Answer `k` is the first usable one, and gives `name`. */
  ghost predicate FirstLabels(answers: seq<Input>, proposed: string, name: string, k: nat) {
    && k < |answers| && Labels(answers[k], proposed, name)
    && (forall j | 0 <= j < k :: Unusable(answers[j]))
  }

  lemma FirstLabelsShift(answers: seq<Input>, proposed: string, name: string, k: nat)
    requires answers != [] && k > 0
    ensures FirstLabels(answers, proposed, name, k) <==>
              Unusable(answers[0]) && FirstLabels(answers[1..], proposed, name, k - 1)
  {
    hide Unusable, Labels;
    var rest := answers[1..];
    if FirstLabels(rest, proposed, name, k - 1) && Unusable(answers[0]) {
      forall j | 0 <= j < k ensures Unusable(answers[j]) {
        if j > 0 { assert rest[j - 1] == answers[j]; }
      }
    }
  }

  /** A name is what the first usable one of the first `tries` answers says, trimmed, or the proposal if it is blank. */
  lemma {:induction false} LabelReadIff(answers: seq<Input>, proposed: string, tries: nat, name: string)
    ensures LabelRead(answers, proposed, tries).0 == Some(name) <==>
              exists k: nat | k < tries :: FirstLabels(answers, proposed, name, k)
    ensures forall k: nat | k < tries && FirstLabels(answers, proposed, name, k) ::
              LabelRead(answers, proposed, tries).1 == answers[k + 1..]
    decreases tries
  {
    hide AnyUnsafe, Trim;
    if tries > 0 && answers != [] {
      var rest := answers[1..];
      LabelOrUnusable(answers[0], proposed, name);
      hide Unusable, Labels;
      forall k: nat | 0 < k < tries && k < |answers|
        ensures FirstLabels(answers, proposed, name, k) <==>
                  Unusable(answers[0]) && FirstLabels(rest, proposed, name, k - 1)
        ensures answers[k + 1..] == rest[k..]
      {
        FirstLabelsShift(answers, proposed, name, k);
      }
      assert FirstLabels(answers, proposed, name, 0) <==> Labels(answers[0], proposed, name);
      if Unusable(answers[0]) {
        LabelReadIff(rest, proposed, tries - 1, name);
        forall k: nat | k < tries - 1 && FirstLabels(rest, proposed, name, k)
          ensures FirstLabels(answers, proposed, name, k + 1)
        {
        }
      }
    }
  }

  lemma LabelOrUnusable(i: Input, proposed: string, name: string)
    ensures Unusable(i) ==> !Labels(i, proposed, name) && Trim(i.text) != "" && AnyUnsafe(Trim(i.text))
    ensures !Unusable(i) && i.Typed? ==>
              (Labels(i, proposed, name) <==> name == if Trim(i.text) == "" then proposed else Trim(i.text))
    ensures !Unusable(i) && i.Typed? ==> !AnyUnsafe(Trim(i.text))
    ensures !i.Typed? ==> !Unusable(i) && !Labels(i, proposed, name)
  {
    hide Trim;
  }

  // ---- What is pasted back to the provider ----

  datatype Paste = Send(value: string) | Poll | Abandon | NoHiding

  /** `input` is whether a value must be pasted, and if so whether it is secret. */
  function Pasted(input: Option<bool>, browser: bool, answers: seq<Input>): Paste {
    if input == Some(true) && answers != [] && answers[0].NoEcho? then NoHiding
    else if !Answers(answers) then Abandon
    else
      var text := Trim(answers[0].text);
      if input.None? && (!browser || text == "") then Poll
      else if text == "" || AnyUnsafe(text) then Abandon
      else Send(text)
  }

  /** A value is sent exactly if it was asked for and typed, and then as typed but for the space around it. */
  lemma PastedIff(input: Option<bool>, browser: bool, answers: seq<Input>, value: string)
    ensures Pasted(input, browser, answers) == Send(value) <==>
              && (input.Some? || browser) && Answers(answers)
              && Trim(answers[0].text) == value && value != "" && !AnyUnsafe(value)
    ensures Pasted(input, browser, answers) == Poll <==>
              input.None? && Answers(answers) && (browser ==> Trim(answers[0].text) == "")
    ensures Pasted(input, browser, answers) == NoHiding <==> input == Some(true) && answers != [] && answers[0].NoEcho?
  {
  }
}
