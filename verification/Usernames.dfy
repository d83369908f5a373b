/** Choosing an account username (packages/dkrypt/src/identity.ts:91-111, 303-305). Lower-casing is a map on
    ASCII letters. */
module Usernames {
  import opened Wrappers
  import opened Characters

  predicate NameChar(c: char) {
    AlphaNumeric(c) || c == '.' || c == '_' || c == '-'
  }

  /** /^[A-Za-z0-9][A-Za-z0-9._-]{1,39}$/ */
  predicate WellFormed(s: string) {
    2 <= |s| <= 40 && AlphaNumeric(s[0]) && forall i | 0 <= i < |s| :: NameChar(s[i])
  }

  const ROOT := "root"
  const SYSTEM := "system"

  predicate Reserved(s: string) {
    Lower(s) == ROOT || Lower(s) == SYSTEM
  }

  /** What setAuthUsername accepts, uniqueness aside. */
  predicate Acceptable(s: string) {
    WellFormed(s) && !Reserved(s)
  }

  // ---------------------------------------------------------------- cleaning

  /** What String.prototype.trim strips. */
  predicate Space(c: char) {
    var n := c as int;
    || 9 <= n <= 13 || n == 32 || n == 0xA0 || n == 0x1680 || 0x2000 <= n <= 0x200A || n == 0x2028 || n == 0x2029
    || n == 0x202F || n == 0x205F || n == 0x3000 || n == 0xFEFF
  }

  function TrimStart(s: string): string {
    if s != "" && Space(s[0]) then TrimStart(s[1..]) else s
  }

  function TrimEnd(s: string): string {
    if s != "" && Space(s[|s| - 1]) then TrimEnd(s[..|s| - 1]) else s
  }

  function Dashed(s: string): (r: string)
    ensures |r| == |s| && forall i | 0 <= i < |s| :: r[i] == (if NameChar(s[i]) then s[i] else '-')
    ensures forall c | c in r :: NameChar(c)
  {
    seq(|s|, i requires 0 <= i < |s| => if NameChar(s[i]) then s[i] else '-')
  }

  function StripStart(s: string): (r: string)
    ensures r != "" ==> AlphaNumeric(r[0])
    ensures forall c | c in r :: c in s
  {
    if s != "" && !AlphaNumeric(s[0]) then StripStart(s[1..]) else s
  }

  function Cut(s: string, n: nat): (r: string)
    ensures |r| <= n && r <= s
  {
    if |s| <= n then s else s[..n]
  }

  const MEMBER := "member"

  /** The name to start from: the candidate reduced to allowed characters, or "member". */
  function Base(candidate: string): (r: string)
    ensures WellFormed(r)
  {
    var cleaned := Cut(StripStart(Dashed(TrimEnd(TrimStart(candidate)))), 40);
    if |cleaned| >= 2 then cleaned else MEMBER
  }

  /** A well-formed name is its own base. */
  lemma BaseKeeps(s: string)
    requires WellFormed(s)
    ensures Base(s) == s
  {
  }

  // ---------------------------------------------------------------- numbering

  function Decimal(n: nat): (s: string)
    ensures s != "" && forall i | 0 <= i < |s| :: '0' <= s[i] <= '9'
    decreases n
  {
    var last := [('0' as int + n % 10) as char];
    if n < 10 then last else Decimal(n / 10) + last
  }

  function ValueOf(s: string): nat
    requires forall i | 0 <= i < |s| :: '0' <= s[i] <= '9'
  {
    if s == "" then 0 else ValueOf(s[..|s| - 1]) * 10 + (s[|s| - 1] as int - '0' as int)
  }

  lemma {:induction false} DecimalValue(n: nat)
    ensures ValueOf(Decimal(n)) == n
  {
    var s := Decimal(n);
    if n < 10 {
      assert s[..|s| - 1] == "";
    } else {
      DecimalValue(n / 10);
      assert s[..|s| - 1] == Decimal(n / 10);
    }
  }

  lemma {:induction false} DecimalLength(n: nat, digits: nat)
    requires n < Ten(digits) && digits > 0
    ensures |Decimal(n)| <= digits
  {
    if n < 10 {
    } else {
      DecimalLength(n / 10, digits - 1);
    }
  }

  function Ten(n: nat): nat {
    if n == 0 then 1 else 10 * Ten(n - 1)
  }

  const FIRST: nat := 2
  const LIMIT: nat := 100_000

  /** The candidate with a number: the base cut so that the whole keeps to forty characters. */
  function Numbered(base: string, suffix: nat): string {
    Head(base, suffix) + "-" + Decimal(suffix)
  }

  function Head(base: string, suffix: nat): string {
    Cut(base, if |Decimal(suffix)| < 39 then 39 - |Decimal(suffix)| else 0)
  }

  lemma NumberedWellFormed(base: string, suffix: nat)
    requires WellFormed(base) && 2 <= suffix < LIMIT
    ensures WellFormed(Numbered(base, suffix)) && '-' in Numbered(base, suffix)
  {
    assert Ten(5) == LIMIT by { assert Ten(1) == 10 && Ten(2) == 100 && Ten(3) == 1000 && Ten(4) == 10000; }
    DecimalLength(suffix, 5);
    var head, tail := Head(base, suffix), Decimal(suffix);
    var all := Numbered(base, suffix);
    assert all == head + "-" + tail && all[|head|] == '-';
    forall i | 0 <= i < |all|
      ensures NameChar(all[i])
    {
      if i < |head| {
        assert all[i] == base[i];
      } else if i > |head| {
        assert all[i] == tail[i - |head| - 1] && all[i] in tail;
      }
    }
  }

  /** What comes after the last dash. */
  lemma DashInTail(a: string, x: string, b: string, y: string)
    requires a + "-" + x == b + "-" + y && |a| < |b|
    ensures '-' in x
  {
    assert (a + "-" + x)[|b|] == '-';
    assert x[|b| - |a| - 1] == '-';
  }

  lemma SameTail(a: string, x: string, b: string, y: string)
    requires a + "-" + x == b + "-" + y && '-' !in x && '-' !in y
    ensures x == y
  {
    if |a| < |b| {
      DashInTail(a, x, b, y);
    } else if |b| < |a| {
      DashInTail(b, y, a, x);
    } else {
      assert x == (a + "-" + x)[|a| + 1..] && y == (b + "-" + y)[|b| + 1..];
    }
  }

  /** Different numbers give different names, letter case aside, whatever the base. */
  lemma NumberedDistinct(base: string, m: nat, n: nat)
    requires Lower(Numbered(base, m)) == Lower(Numbered(base, n))
    ensures m == n
  {
    hide Numbered, Head, Lower, Decimal;
    LowerNumbered(base, m);
    LowerNumbered(base, n);
    SameTail(Lower(Head(base, m)), Decimal(m), Lower(Head(base, n)), Decimal(n));
    DecimalValue(m);
    DecimalValue(n);
  }

  lemma LowerNumbered(base: string, n: nat)
    ensures Lower(Numbered(base, n)) == Lower(Head(base, n)) + "-" + Decimal(n)
  {
  }

  // ---------------------------------------------------------------- availability

  predicate Free(name: string, others: set<string>) {
    !Reserved(name) && Lower(name) !in others
  }

  function FirstFree(base: string, others: set<string>, suffix: nat): Option<string>
    decreases LIMIT - suffix
  {
    if suffix >= LIMIT then None
    else if Free(Numbered(base, suffix), others) then Some(Numbered(base, suffix))
    else FirstFree(base, others, suffix + 1)
  }

  /** availableUsername: `others` are the lower-cased names of the other profiles; None when it throws. */
  function Chosen(candidate: string, others: set<string>): Option<string> {
    if Free(Base(candidate), others) then Some(Base(candidate)) else FirstFree(Base(candidate), others, FIRST)
  }

  method AvailableUsername(candidate: string, others: set<string>) returns (name: Option<string>)
    ensures name == Chosen(candidate, others)
  {
    var base := Base(candidate);
    var used := {ROOT, SYSTEM} + others;
    if Lower(base) !in used { return Some(base); }
    var suffix := FIRST;
    while suffix < LIMIT
      invariant 2 <= suffix <= LIMIT && FirstFree(base, others, FIRST) == FirstFree(base, others, suffix)
    {
      var value := Numbered(base, suffix);
      if Lower(value) !in used { return Some(value); }
      suffix := suffix + 1;
    }
    name := None;
  }

  lemma {:induction false} FirstFreeIs(base: string, others: set<string>, suffix: nat)
    requires WellFormed(base) && suffix >= 2
    ensures match FirstFree(base, others, suffix)
      case Some(name) => Acceptable(name) && Lower(name) !in others
      case None => forall n | suffix <= n < LIMIT :: !Free(Numbered(base, n), others)
    decreases LIMIT - suffix
  {
    if suffix >= LIMIT {
    } else {
      if Free(Numbered(base, suffix), others) {
        NumberedWellFormed(base, suffix);
      } else {
        FirstFreeIs(base, others, suffix + 1);
      }
    }
  }

  /** A chosen name is acceptable and not in use, and a usable candidate is kept as it is. */
  lemma ChosenIsUsable(candidate: string, others: set<string>)
    ensures Chosen(candidate, others).Some? ==>
      var name := Chosen(candidate, others).value; Acceptable(name) && Lower(name) !in others
    ensures Acceptable(candidate) && Lower(candidate) !in others ==> Chosen(candidate, others) == Some(candidate)
  {
    FirstFreeIs(Base(candidate), others, FIRST);
    if Acceptable(candidate) {
      BaseKeeps(candidate);
    }
  }

  /** The lower-cased numbered candidates below n. */
  function Candidates(base: string, n: nat): set<string> {
    if n <= 2 then {} else Candidates(base, n - 1) + {Lower(Numbered(base, n - 1))}
  }

  lemma {:induction false} CandidatesAre(base: string, n: nat, x: string)
    ensures x in Candidates(base, n) <==> exists m :: 2 <= m < n && x == Lower(Numbered(base, m))
  {
    hide Numbered;
    if n <= 2 {
    } else {
      CandidatesAre(base, n - 1, x);
    }
  }

  /** The next numbered name is none of those before. */
  lemma NextIsNew(base: string, n: nat)
    ensures Lower(Numbered(base, n)) !in Candidates(base, n)
  {
    hide Numbered, Lower;
    var last := Lower(Numbered(base, n));
    CandidatesAre(base, n, last);
    forall m | 2 <= m < n
      ensures Lower(Numbered(base, m)) != last
    {
      NumbersApart(base, m, n);
    }
  }

  lemma {:induction false} CandidatesCounted(base: string, n: nat)
    requires n >= 2
    ensures |Candidates(base, n)| == n - 2
  {
    hide Numbered;
    if n <= 2 {
    } else {
      CandidatesCounted(base, n - 1);
      NextIsNew(base, n - 1);
      hide Lower;
    }
  }

  lemma NumbersApart(base: string, m: nat, n: nat)
    requires m != n
    ensures Lower(Numbered(base, m)) != Lower(Numbered(base, n))
  {
    if Lower(Numbered(base, m)) == Lower(Numbered(base, n)) {
      NumberedDistinct(base, m, n);
    }
  }

  lemma DashNotReserved(name: string)
    requires '-' in name
    ensures !Reserved(name)
  {
  }

  lemma NotFreeIsUsed(base: string, n: nat, others: set<string>)
    requires WellFormed(base) && 2 <= n < LIMIT && !Free(Numbered(base, n), others)
    ensures Lower(Numbered(base, n)) in others
  {
    NumberedWellFormed(base, n);
    DashNotReserved(Numbered(base, n));
  }

  /** Choosing fails only when at least 99,998 other names are in use. */
  lemma FailsOnlyWhenCrowded(candidate: string, others: set<string>)
    ensures Chosen(candidate, others).None? ==> |others| >= 99_998
  {
    var base := Base(candidate);
    FirstFreeIs(base, others, FIRST);
    if Chosen(candidate, others).None? {
      CandidatesCounted(base, LIMIT);
      forall x | x in Candidates(base, LIMIT)
        ensures x in others
      {
        CandidatesAre(base, LIMIT, x);
        var m :| 2 <= m < LIMIT && x == Lower(Numbered(base, m));
        NotFreeIsUsed(base, m, others);
      }
      Smaller(Candidates(base, LIMIT), others);
    }
  }

  lemma {:induction false} Smaller<T>(a: set<T>, b: set<T>)
    requires a <= b
    ensures |a| <= |b|
  {
    assert b == a + (b - a);
  }
}
