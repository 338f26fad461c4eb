/** The `validate_input` decorator of main.py: before a conversation handler runs, the
    message text is checked against one of three shapes; on a mismatch the bot replies
    with an error and the handler is not called. */
module Validators {
  import opened Text

  /** The `input_type` argument of the decorator; any other string checks nothing. */
  datatype InputKind = Username | TwoFactorCode | Time | Unchecked

  /** The character class `[a-zA-Z0-9._]`. */
  predicate IsUsernameChar(c: char)
  {
    IsAsciiLetter(c) || IsAsciiDigit(c) || c == '.' || c == '_'
  }

  /** `[a-zA-Z0-9._]{1,30}` matched against the whole of `s`. */
  predicate UsernameShape(s: string)
  {
    1 <= |s| <= 30 && forall i :: 0 <= i < |s| ==> IsUsernameChar(s[i])
  }

  /** `\d{6}` matched against the whole of `s`. */
  predicate CodeShape(s: string)
  {
    |s| == 6 && forall i :: 0 <= i < |s| ==> IsAsciiDigit(s[i])
  }

  /** Positions of `DD.MM.YYYY HH:MM` that hold a separator rather than a digit. */
  predicate IsTimeSeparatorPosition(i: int)
  {
    i == 2 || i == 5 || i == 10 || i == 13
  }

  /** `\d{2}\.\d{2}\.\d{4} \d{2}:\d{2}` matched against the whole of `s`. */
  predicate TimeShape(s: string)
  {
    && |s| == 16
    && s[2] == '.' && s[5] == '.' && s[10] == ' ' && s[13] == ':'
    && forall i :: 0 <= i < 16 && !IsTimeSeparatorPosition(i) ==> IsAsciiDigit(s[i])
  }

  /** Python's `re.match('^X$', text)`: `$` matches at the end of the text and also just
      before a newline that ends it, so one final newline may follow the match. */
  ghost predicate AnchoredMatch(shape: string -> bool, text: string)
  {
    shape(text) || (exists body :: text == body + "\n" && shape(body))
  }

  /** The text without one trailing newline, if it has one. */
  function ChompNewline(text: string): (body: string)
    ensures text == body || text == body + "\n"
    ensures |text| > 0 && text[|text| - 1] == '\n' ==> text == body + "\n"
  {
    if |text| > 0 && text[|text| - 1] == '\n' then text[..|text| - 1] else text
  }

  /** True iff the decorated handler runs for this text. The username and code shapes
      are checked by one scan of the text with a trailing newline dropped. */
  function Admits(kind: InputKind, text: string): (pass: bool)
  {
    match kind
    case Username =>
      var body := ChompNewline(text);
      1 <= |body| <= 30 && AllChars(body, IsUsernameChar)
    case TwoFactorCode =>
      var body := ChompNewline(text);
      |body| == 6 && AllChars(body, IsAsciiDigit)
    case Time =>
      Lower(text) == "now" || TimeShape(ChompNewline(text))
    case Unchecked => true
  }

  /** A shape that never ends in a newline is matched by `Admits`' scan exactly when
      Python's anchored match succeeds. */
  lemma {:induction false} ChompMatches(shape: string -> bool, text: string)
    requires forall s :: shape(s) ==> |s| > 0 && s[|s| - 1] != '\n'
    ensures AnchoredMatch(shape, text) <==> shape(ChompNewline(text))
  {
    var body := ChompNewline(text);
    if shape(body) {
      if text == body {
        assert shape(text);
      } else {
        assert text == body + "\n" && shape(body);
      }
    }
    if AnchoredMatch(shape, text) {
      if shape(text) {
        assert text[|text| - 1] != '\n';
        assert body == text;
      } else {
        var b :| text == b + "\n" && shape(b);
        assert text[|text| - 1] == '\n';
        assert text[..|text| - 1] == b;
      }
    }
  }

  /** A username is admitted iff it is 1..30 characters of `[a-zA-Z0-9._]`, optionally
      followed by one newline. */
  lemma UsernameAdmittedIff(text: string)
    ensures Admits(Username, text) <==> AnchoredMatch(UsernameShape, text)
  {
    forall s | UsernameShape(s)
      ensures |s| > 0 && s[|s| - 1] != '\n'
    {
      assert IsUsernameChar(s[|s| - 1]);
    }
    ChompMatches(UsernameShape, text);
    assert Admits(Username, text) <==> UsernameShape(ChompNewline(text));
  }

  /** A two-factor code is admitted iff it is exactly six digits, optionally followed by
      one newline; so "12a45b" and "1234" are refused. */
  lemma CodeAdmittedIff(text: string)
    ensures Admits(TwoFactorCode, text) <==> AnchoredMatch(CodeShape, text)
  {
    forall s | CodeShape(s)
      ensures |s| > 0 && s[|s| - 1] != '\n'
    {
      assert IsAsciiDigit(s[|s| - 1]);
    }
    ChompMatches(CodeShape, text);
    assert Admits(TwoFactorCode, text) <==> CodeShape(ChompNewline(text));
  }

  /** A time is admitted iff it is `now` in any letter case, or `DD.MM.YYYY HH:MM`
      optionally followed by one newline. */
  lemma TimeAdmittedIff(text: string)
    ensures Admits(Time, text) <==> Lower(text) == "now" || AnchoredMatch(TimeShape, text)
  {
    forall s | TimeShape(s)
      ensures |s| > 0 && s[|s| - 1] != '\n'
    {
      assert s[15] == s[|s| - 1] && IsAsciiDigit(s[15]);
    }
    ChompMatches(TimeShape, text);
    
  }

  /** The codes of the examples: six digits pass, letters or too few digits do not. */
  lemma CodeExamples()
    ensures Admits(TwoFactorCode, "123456")
    ensures Admits(TwoFactorCode, "123456\n")
    ensures !Admits(TwoFactorCode, "12a45b")
    ensures !Admits(TwoFactorCode, "1234")
  {
    assert !IsAsciiDigit("12a45b"[2]);
  }
}
