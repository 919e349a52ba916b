/**
  The phone-format check both customer workflows share: a phone that is
  absent or empty is accepted; any other phone must satisfy
  `re.match(r"^\+?\d[\d\-]{7,}$", phone)`.

  The pattern is written out by hand. Python's `$` (without MULTILINE)
  matches at the end of the string and also just before a single newline
  that ends it, so a phone followed by one "\n" passes too; this model keeps
  that behaviour. `\d` is modelled as the ASCII digits 0-9.
 */
module Phone {

  import opened Wrappers
  import opened Digits

  predicate IsDigitOrHyphen(c: char) {
    IsDigit(c) || c == '-'
  }

  /** `[\d\-]{7,}`: seven or more characters, each a digit or a hyphen. */
  predicate Run(s: string) {
    |s| >= 7 && forall i :: 0 <= i < |s| ==> IsDigitOrHyphen(s[i])
  }

  /** `\d[\d\-]{7,}` matching all of `s`. */
  predicate Body(s: string) {
    |s| >= 1 && IsDigit(s[0]) && Run(s[1..])
  }

  /** `\+?\d[\d\-]{7,}` matching all of `s` (the optional sign is taken when present). */
  predicate FullMatch(s: string) {
    Body(s) || (|s| >= 1 && s[0] == '+' && Body(s[1..]))
  }

  /** `re.match` of the anchored pattern: `$` also matches before one final newline. */
  predicate Matches(s: string) {
    FullMatch(s) || (|s| >= 1 && s[|s| - 1] == '\n' && FullMatch(s[..|s| - 1]))
  }

  /** `not (phone and not re.match(...))`: absent and empty phones are not checked. */
  predicate Accepts(phone: Option<string>) {
    phone.None? || phone.value == "" || Matches(phone.value)
  }

  /** The strings the pattern's parts concatenate to: optional `+`, one digit, the run. */
  function Compose(plus: bool, first: char, run: string): string {
    (if plus then "+" else "") + [first] + run
  }

  /** The strings the regular expression describes, before the `$` anchor. */
  ghost predicate Pattern(s: string) {
    exists plus: bool, first: char, run: string :: IsDigit(first) && Run(run) && s == Compose(plus, first, run)
  }

  /** FullMatch accepts exactly the concatenations the regular expression describes. */
  lemma FullMatchIsPattern(s: string)
    ensures FullMatch(s) <==> Pattern(s)
  {
    if FullMatch(s) {
      var plus := !Body(s);
      var rest := if plus then s[1..] else s;
      assert s == Compose(plus, rest[0], rest[1..]);
    }
    if Pattern(s) {
      var plus: bool, first: char, run: string :|
        IsDigit(first) && Run(run) && s == Compose(plus, first, run);
      var body := [first] + run;
      assert body[1..] == run;
      if plus {
        assert s == "+" + body && s[1..] == body;
      } else {
        assert s == body;
      }
    }
  }

  /**
    The phone check as a whole: an absent or empty phone is accepted; any
    other phone is accepted exactly when it is one of the pattern's strings,
    possibly followed by a single newline.
   */
  lemma AcceptsPattern(s: string)
    ensures Accepts(Some(s)) <==>
      s == "" || Pattern(s) || (|s| >= 1 && s[|s| - 1] == '\n' && Pattern(s[..|s| - 1]))
    ensures Accepts(None)
  {
    FullMatchIsPattern(s);
    if |s| >= 1 {
      FullMatchIsPattern(s[..|s| - 1]);
    }
  }

  /** Only one trailing newline is tolerated, and no other newline anywhere. */
  lemma MatchesNewlines(s: string)
    requires Matches(s)
    ensures forall i :: 0 <= i < |s| - 1 ==> s[i] != '\n'
  {
    if !FullMatch(s) {
      var t := s[..|s| - 1];
      assert FullMatch(t);
      assert forall i :: 0 <= i < |t| ==> t[i] != '\n' by {
        forall i | 0 <= i < |t| ensures t[i] != '\n' {
          if i > 0 && t[0] == '+' {
            assert t[1..][i - 1] == t[i];
          } else if i > 0 {
            assert t[1..][i - 1] == t[i];
          }
        }
      }
    } else {
      forall i | 0 <= i < |s| ensures s[i] != '\n' {
        if i > 0 {
          assert s[1..][i - 1] == s[i];
        }
      }
    }
  }

  /** A digit and a run match, with or without a leading sign. */
  lemma ComposedMatches(first: char, run: string)
    requires IsDigit(first) && Run(run)
    ensures Matches([first] + run) && Matches(['+', first] + run)
  {
    assert ([first] + run)[1..] == run;
    assert (['+', first] + run)[1..] == [first] + run;
  }

  /** The international format the source's own error message names. */
  lemma AcceptedInternational()
    ensures Accepts(Some("+1234567890"))
  {
    ComposedMatches('1', "234567890");
    assert "+1234567890" == ['+', '1'] + "234567890";
  }

  /** The hyphenated format the source's own error message names. */
  lemma AcceptedHyphenated()
    ensures Accepts(Some("123-456-7890"))
  {
    ComposedMatches('1', "23-456-7890");
    assert "123-456-7890" == ['1'] + "23-456-7890";
  }

  /** Absent and empty phones are not checked; one trailing newline is tolerated. */
  lemma AcceptedUnchecked()
    ensures Accepts(None) && Accepts(Some(""))
    ensures Accepts(Some("12345678\n"))
  {
    assert "12345678\n"[..8] == "12345678";
    assert "12345678"[1..] == "2345678";
  }

  /** Too short, a sign with too few digits after it, and two trailing newlines. */
  lemma RejectedExamples()
    ensures !Accepts(Some("12345"))
    ensures !Accepts(Some("+1234567"))
    ensures !Accepts(Some("12345678\n\n"))
  {
    var twice := "12345678\n\n";
    assert twice[1..][7] == '\n' && twice[..|twice| - 1][1..][7] == '\n';
  }
}
