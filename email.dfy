/** The email pattern of the user schema (backend/models/User.js, the
    `match` rule of `email`):

        ^\w+([\.-]?\w+)*@\w+([\.-]?\w+)*(\.\w{2,3})+$

    `\w+([\.-]?\w+)*` is a run of word characters in which single '.' or
    '-' separators may stand between word characters: `Segmented` below.
    The domain `\w+([\.-]?\w+)*(\.\w{2,3})+` is a segmented string, then '.',
    then 2 or 3 word characters: every final group but the last folds into
    the segmented prefix, since each is '.' followed by word characters. */
module Email {
  import opened Text

  predicate IsSeparator(c: char) {
    c == '.' || c == '-'
  }

  /** No separator sits at index `i` right after another one. */
  predicate SingleSeparatorAt(s: string, i: int)
    requires 0 < i < |s|
  {
    IsWordChar(s[i - 1]) || IsWordChar(s[i])
  }

  /** `\w+([\.-]?\w+)*`. */
  predicate Segmented(s: string) {
    && |s| > 0
    && IsWordChar(s[0])
    && IsWordChar(s[|s| - 1])
    && (forall i :: 0 <= i < |s| ==> IsWordChar(s[i]) || IsSeparator(s[i]))
    && (forall i :: 0 < i < |s| ==> SingleSeparatorAt(s, i))
  }

  predicate AllWordChars(s: string) {
    forall i :: 0 <= i < |s| ==> IsWordChar(s[i])
  }

  /** The whole pattern: a segmented local part, '@', a segmented domain
      prefix, '.', and a final label of 2 or 3 word characters. */
  predicate EmailPattern(s: string) {
    exists at, dot :: 0 <= at < dot < |s| && SplitsAt(s, at, dot)
  }

  /** The '@' at `at` and the '.' before the final label at `dot` cut `s`
      into the pattern's parts. */
  predicate SplitsAt(s: string, at: int, dot: int) {
    && 0 <= at < dot < |s|
    && s[at] == '@'
    && s[dot] == '.'
    && Segmented(s[..at])
    && Segmented(s[at + 1..dot])
    && 2 <= |s| - dot - 1 <= 3
    && AllWordChars(s[dot + 1..])
  }

  /** A character that may never follow another of its kind. */
  predicate IsPunctuation(c: char) {
    c == '.' || c == '-' || c == '@'
  }

  /** A segmented part has no '@', begins and ends with a word character,
      and has no two adjacent separators. */
  lemma SegmentedShape(t: string)
    requires Segmented(t)
    ensures '@' !in t
    ensures !IsPunctuation(t[0]) && !IsPunctuation(t[|t| - 1])
    ensures forall i :: 0 < i < |t| ==> !(IsPunctuation(t[i - 1]) && IsPunctuation(t[i]))
  {
    forall i | 0 <= i < |t| ensures t[i] != '@' {
      assert IsWordChar(t[i]) || IsSeparator(t[i]);
    }
    forall i | 0 < i < |t| ensures !(IsPunctuation(t[i - 1]) && IsPunctuation(t[i])) {
      assert SingleSeparatorAt(t, i);
    }
  }

  /** A run of word characters has no '@'. */
  lemma WordCharsShape(t: string)
    requires AllWordChars(t)
    ensures '@' !in t
    ensures forall i :: 0 <= i < |t| ==> !IsPunctuation(t[i])
  {
    forall i | 0 <= i < |t| ensures t[i] != '@' {
      assert IsWordChar(t[i]);
    }
  }

  /** A string with one '@' at `at` and none elsewhere counts one '@'. */
  lemma CountOne(s: string, at: nat)
    requires at < |s| && s[at] == '@'
    requires '@' !in s[..at] && '@' !in s[at + 1..]
    ensures multiset(s)['@'] == 1
  {
    var local, domain := s[..at], s[at + 1..];
    assert s == local + [s[at]] + domain;
    assert multiset(s) == multiset(local) + multiset{'@'} + multiset(domain);
  }

  /** An accepted email contains exactly one '@'. */
  lemma OneAt(s: string)
    requires EmailPattern(s)
    ensures multiset(s)['@'] == 1
  {
    var at, dot :| 0 <= at < dot < |s| && SplitsAt(s, at, dot);
    var local, mid, tld := s[..at], s[at + 1..dot], s[dot + 1..];
    SegmentedShape(local);
    SegmentedShape(mid);
    WordCharsShape(tld);
    assert s[at + 1..] == mid + [s[dot]] + tld;
    CountOne(s, at);
  }

  /** `s` ends with '.' followed by `k` word characters. */
  predicate EndsWithLabel(s: string, k: nat) {
    k < |s| && s[|s| - k - 1] == '.' && AllWordChars(s[|s| - k..])
  }

  /** An accepted email starts with a word character and ends with '.'
      followed by 2 or 3 word characters. */
  lemma Ends(s: string)
    requires EmailPattern(s)
    ensures |s| > 0 && IsWordChar(s[0])
    ensures EndsWithLabel(s, 2) || EndsWithLabel(s, 3)
  {
    var at, dot :| 0 <= at < dot < |s| && SplitsAt(s, at, dot);
    assert s[..at][0] == s[0];
    assert EndsWithLabel(s, |s| - dot - 1);
  }

  /** In an accepted email no two of '.', '-' and '@' are adjacent. */
  lemma NoAdjacentPunctuation(s: string)
    requires EmailPattern(s)
    ensures forall i :: 0 < i < |s| ==> !(IsPunctuation(s[i - 1]) && IsPunctuation(s[i]))
  {
    var at, dot :| 0 <= at < dot < |s| && SplitsAt(s, at, dot);
    var local, mid, tld := s[..at], s[at + 1..dot], s[dot + 1..];
    SegmentedShape(local);
    SegmentedShape(mid);
    WordCharsShape(tld);
    forall i | 0 < i < |s| ensures !(IsPunctuation(s[i - 1]) && IsPunctuation(s[i])) {
      if i < at {
        assert local[i - 1] == s[i - 1] && local[i] == s[i];
      } else if i == at {
        assert local[|local| - 1] == s[i - 1];
      } else if i == at + 1 {
        assert mid[0] == s[i];
      } else if i < dot {
        assert mid[i - at - 2] == s[i - 1] && mid[i - at - 1] == s[i];
      } else if i == dot {
        assert mid[|mid| - 1] == s[i - 1];
      } else {
        assert tld[i - dot - 1] == s[i];
      }
    }
  }

  /** A plain campus address is accepted. */
  lemma CampusAddressAccepted()
    ensures EmailPattern("a@ousl.lk")
  {
    var s := "a@ousl.lk";
    assert s[..1] == "a" && s[2..6] == "ousl" && s[7..] == "lk";
    assert Segmented(s[2..6]) by {
      assert forall i :: 0 < i < 4 ==> SingleSeparatorAt("ousl", i);
    }
    assert s[1] == '@' && s[6] == '.';
    assert SplitsAt(s, 1, 6);
  }

  /** A four-letter final label is refused, although the address is
      otherwise well formed. */
  lemma FourLetterLabelRefused()
    ensures !EmailPattern("a@b.info")
  {
    var s := "a@b.info";
    forall at, dot | 0 <= at < dot < |s| && s[at] == '@' && s[dot] == '.'
      ensures !(2 <= |s| - dot - 1 <= 3)
    {
      assert at == 1 && dot == 3;
    }
  }
}
