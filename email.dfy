/**
 * The e-mail check `validateEmail` (script.js:295-298), shared by the
 * booking, contact and newsletter forms.
 */
module Email {
  import opened JsText

  /** `[^\s@]+`: a non-empty run of characters that are neither whitespace nor '@'. */
  predicate Atom(s: string) {
    |s| > 0 && forall i :: 0 <= i < |s| ==> !IsSpace(s[i]) && s[i] != '@'
  }

  /**
   * `/^[^\s@]+@[^\s@]+\.[^\s@]+$/.test(email)`: the whole string splits at
   * an '@' and at a later '.' into three atoms.
   */
  predicate ValidateEmail(email: string) {
    exists at, dot | 0 <= at < dot < |email| ::
      && email[at] == '@' && email[dot] == '.'
      && Atom(email[..at]) && Atom(email[at + 1..dot]) && Atom(email[dot + 1..])
  }

  /** The number of occurrences of `c` in `s`. */
  function Count(s: string, c: char): nat {
    multiset(s)[c]
  }

  /** The position of the first `c` in `s`, or `|s|` when there is none. */
  function IndexOf(s: string, c: char): (k: nat)
    ensures k <= |s|
    ensures k < |s| ==> s[k] == c
    ensures forall i :: 0 <= i < k ==> s[i] != c
  {
    if s == [] then 0
    else if s[0] == c then 0
    else 1 + IndexOf(s[1..], c)
  }

  /** The domain has a '.' with at least one character on each side of it. */
  predicate HasInnerDot(domain: string) {
    exists k | 0 < k < |domain| - 1 :: domain[k] == '.'
  }

  /**
   * The shape the regular expression accepts, stated field by field: no
   * whitespace, exactly one '@', a non-empty local part before it, and a
   * domain after it with an inner '.'.
   */
  predicate EmailShape(s: string) {
    && NoSpace(s)
    && Count(s, '@') == 1
    && var at := IndexOf(s, '@');
       at > 0 && HasInnerDot(s[at + 1..])
  }

  lemma NoneCounted(s: string, c: char)
    requires forall i :: 0 <= i < |s| ==> s[i] != c
    ensures Count(s, c) == 0
  {
    assert c !in s;
  }

  lemma CountSplit(s: string, k: nat, c: char)
    requires k < |s|
    ensures Count(s, c) == Count(s[..k], c) + (if s[k] == c then 1 else 0) + Count(s[k + 1..], c)
  {
    assert s == s[..k] + [s[k]] + s[k + 1..];
  }

  /** A matching address has the shape. */
  lemma MatchHasShape(s: string, at: nat, dot: nat)
    requires at < dot < |s| && s[at] == '@' && s[dot] == '.'
    requires Atom(s[..at]) && Atom(s[at + 1..dot]) && Atom(s[dot + 1..])
    ensures EmailShape(s)
  {
    var local, host, top := s[..at], s[at + 1..dot], s[dot + 1..];
    forall i | 0 <= i < |s| ensures !IsSpace(s[i]) {
      if i < at {
        assert s[i] == local[i];
      } else if at < i < dot {
        assert s[i] == host[i - at - 1];
      } else if dot < i {
        assert s[i] == top[i - dot - 1];
      }
    }
    NoneCounted(local, '@');
    var rest := s[at + 1..];
    forall i | 0 <= i < |rest| ensures rest[i] != '@' {
      var j := at + 1 + i;
      if j < dot {
        assert rest[i] == host[j - at - 1];
      } else if dot < j {
        assert rest[i] == top[j - dot - 1];
      }
    }
    NoneCounted(rest, '@');
    CountSplit(s, at, '@');
    forall i | 0 <= i < at ensures s[i] != '@' {
      assert s[i] == local[i];
    }
    assert s[at + 1..][dot - at - 1] == '.';
  }

  /** An address with the shape matches. */
  lemma ShapeMatches(s: string)
    requires EmailShape(s)
    ensures ValidateEmail(s)
  {
    var at := IndexOf(s, '@');
    if at == |s| {
      NoneCounted(s, '@');
    }
    assert at < |s|;
    var domain := s[at + 1..];
    var k :| 0 < k < |domain| - 1 && domain[k] == '.';
    var dot := at + 1 + k;
    CountSplit(s, at, '@');
    assert Count(domain, '@') == 0;
    assert '@' !in multiset(domain);
    assert '@' !in domain;
    assert s[at + 1..dot] == domain[..k];
    assert s[dot + 1..] == domain[k + 1..];
    assert Atom(s[..at]);
    assert Atom(s[at + 1..dot]);
    assert Atom(s[dot + 1..]);
  }

  /**
   * `validateEmail(s)` holds exactly when `s` has no whitespace, exactly
   * one '@', a non-empty part before it, and a domain with a '.' that has a
   * character on each side.
   */
  lemma EmailCharacterization(s: string)
    ensures ValidateEmail(s) <==> EmailShape(s)
  {
    if ValidateEmail(s) {
      var at, dot :| 0 <= at < dot < |s| && s[at] == '@' && s[dot] == '.'
        && Atom(s[..at]) && Atom(s[at + 1..dot]) && Atom(s[dot + 1..]);
      MatchHasShape(s, at, dot);
    }
    if EmailShape(s) {
      ShapeMatches(s);
    }
  }

  /** An accepted address is never blank, so a separate emptiness test in front of the check is redundant. */
  lemma ValidEmailNotBlank(s: string)
    requires ValidateEmail(s)
    ensures s != [] && Trim(s) != []
  {
    var at, dot :| 0 <= at < dot < |s| && s[at] == '@' && s[dot] == '.'
      && Atom(s[..at]) && Atom(s[at + 1..dot]) && Atom(s[dot + 1..]);
    TrimFacts(s);
    assert !IsSpace(s[at]);
  }

  /** Examples of accepted and rejected addresses. */
  lemma EmailExamples()
    ensures ValidateEmail("a@b.co")
    ensures !ValidateEmail("a@b")
    ensures !ValidateEmail("a@.co")
    ensures !ValidateEmail("@b.co")
  {
    var good := "a@b.co";
    assert good[..1] == "a" && good[2..3] == "b" && good[4..] == "co";
    assert good[1] == '@' && good[3] == '.';
    assert Atom(good[..1]) && Atom(good[1 + 1..3]) && Atom(good[3 + 1..]);
  }
}
