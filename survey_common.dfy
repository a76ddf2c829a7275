/** The first survey form: the at-most-three interest toggle and the ordered
    checks that decide whether the visitor may go on to the second form. */
module SurveyCommon {
  import opened Wrappers
  import opened Text
  import opened Types
  import opened Guards
  import opened Constants

  /** At most this many interests may be chosen. */
  const MaxInterests: nat := 3

  /** `s.filter(i => i !== x)`: every occurrence of `x` dropped, the order of
      the rest kept. */
  function RemoveAll(s: seq<string>, x: string): (r: seq<string>)
    ensures forall y :: y in r <==> y in s && y != x
    ensures x !in s ==> r == s
    ensures |r| <= |s|
    decreases |s|
  {
    if s == [] then []
    else (if s[0] == x then [] else [s[0]]) + RemoveAll(s[1..], x)
  }

  /** Filtering works entry by entry: it distributes over concatenation, so
      the entries it keeps stay in their order and keep their multiplicity. */
  lemma {:induction false} RemoveAllConcat(a: seq<string>, b: seq<string>, x: string)
    ensures RemoveAll(a + b, x) == RemoveAll(a, x) + RemoveAll(b, x)
    decreases |a|
  {
    if a == [] {
      assert a + b == b;
    } else {
      var head := if a[0] == x then [] else [a[0]];
      calc {
        RemoveAll(a + b, x);
        { assert (a + b)[0] == a[0] && (a + b)[1..] == a[1..] + b; }
        head + RemoveAll(a[1..] + b, x);
        { RemoveAllConcat(a[1..], b, x); }
        head + (RemoveAll(a[1..], x) + RemoveAll(b, x));
        (head + RemoveAll(a[1..], x)) + RemoveAll(b, x);
      }
    }
  }

  /** A single entry is kept exactly when it differs from `x`. */
  lemma RemoveAllSingle(y: string, x: string)
    ensures RemoveAll([y], x) == if y == x then [] else [y]
  {
    assert [y][1..] == [];
  }

  /** Filtering keeps a list without repetitions free of them. */
  lemma {:induction false} RemoveAllDistinct(s: seq<string>, x: string)
    requires Distinct(s)
    ensures Distinct(RemoveAll(s, x))
    decreases |s|
  {
    if s != [] {
      DistinctTail(s);
      RemoveAllDistinct(s[1..], x);
    }
  }

  /** Filtering out a value just appended, and absent before, gives the list
      back. */
  lemma {:induction false} RemoveAllAppended(s: seq<string>, x: string)
    requires x !in s
    ensures RemoveAll(s + [x], x) == s
    decreases |s|
  {
    if s == [] {
      assert [x][1..] == [];
    } else {
      assert (s + [x])[1..] == s[1..] + [x];
      RemoveAllAppended(s[1..], x);
      assert s == [s[0]] + s[1..];
    }
  }

  /** `handleInterestChange`: a chosen interest is removed; a new one is
      appended when fewer than three are chosen, and refused (`None`, the
      alert) otherwise. */
  function ToggleInterest(interests: seq<string>, interest: string): (r: Option<seq<string>>)
    ensures interest in interests ==> r == Some(RemoveAll(interests, interest))
    ensures interest in interests ==> r.Some? && forall y :: y in r.value <==> y in interests && y != interest
    ensures interest !in interests ==> (r.None? <==> |interests| >= MaxInterests)
    ensures interest !in interests && r.Some? ==> r.value == interests + [interest]
  {
    if interest in interests then Some(RemoveAll(interests, interest))
    else if |interests| >= MaxInterests then None
    else Some(interests + [interest])
  }

  /** The toggle behaves like flipping membership in a set: after an accepted
      toggle exactly the toggled interest has changed membership. */
  lemma ToggleFlipsMembership(interests: seq<string>, interest: string, y: string)
    requires ToggleInterest(interests, interest).Some?
    ensures y in ToggleInterest(interests, interest).value <==> ((y in interests) != (y == interest))
  {
  }

  /** Starting with at most three interests, no toggle leads to more than
      three, and a list without repetitions stays so. */
  lemma ToggleKeepsBound(interests: seq<string>, interest: string)
    requires |interests| <= MaxInterests
    ensures ToggleInterest(interests, interest).Some? ==> |ToggleInterest(interests, interest).value| <= MaxInterests
    ensures Distinct(interests) && ToggleInterest(interests, interest).Some?
        ==> Distinct(ToggleInterest(interests, interest).value)
  {
    if Distinct(interests) && interest in interests {
      RemoveAllDistinct(interests, interest);
    }
  }

  /** Adding an absent interest under capacity and then toggling it again
      restores the original list. */
  lemma AddThenRemoveRestores(interests: seq<string>, interest: string)
    requires interest !in interests && |interests| < MaxInterests
    ensures ToggleInterest(interests, interest) == Some(interests + [interest])
    ensures ToggleInterest(interests + [interest], interest) == Some(interests)
  {
    RemoveAllAppended(interests, interest);
  }

  /** Why the first form refuses to go on. */
  datatype CommonError = NameMissing | AffiliationMissing | InterestsMissing | ThemeMissing

  /** The checks of `validateAndNext`, in the order they are made. */
  function CommonChecks(u: UserData): seq<Check<CommonError>>
  {
    [ Check(!IsBlank(u.name), NameMissing),
      Check(u.affiliation != "", AffiliationMissing),
      Check(|u.interests| != 0, InterestsMissing),
      Check(u.theme != "", ThemeMissing) ]
  }

  /** `validateAndNext`: the early-return chain. */
  function ValidateCommon(u: UserData): (r: Verdict<CommonError>)
    ensures r.Proceed? <==> !IsBlank(u.name) && u.affiliation != "" && |u.interests| > 0 && u.theme != ""
  {
    if IsBlank(u.name) then Blocked(NameMissing)
    else if u.affiliation == "" then Blocked(AffiliationMissing)
    else if |u.interests| == 0 then Blocked(InterestsMissing)
    else if u.theme == "" then Blocked(ThemeMissing)
    else Proceed
  }

  /** The chain reports the first failing check of the list, in the order
      name, affiliation, interests, theme. */
  lemma ValidateCommonIsFirstFailure(u: UserData)
    ensures ValidateCommon(u) == FirstFailure(CommonChecks(u))
  {
    var checks := CommonChecks(u);
    FirstFailureOfFour(checks[0], checks[1], checks[2], checks[3]);
  }
}
