/**
 * The names interactive login makes up and the numbers it reads: decimal text and the first unused `<provider>-<n>`.
 */
module LoginLabels {
  import opened Basics

  // ---- Decimal text ----

  predicate IsDigit(c: char) {
    '0' <= c <= '9'
  }

  predicate AllDigits(s: string) {
    forall i | 0 <= i < |s| :: IsDigit(s[i])
  }

  function Decimal(n: nat): (s: string)
    ensures s != "" && AllDigits(s)
  {
    if n < 10 then ['0' + n as char] else Decimal(n / 10) + ['0' + (n % 10) as char]
  }

  /** The number that digits spell; leading zeros are allowed. */
  function Value(s: string): nat
    requires AllDigits(s)
  {
    if s == "" then 0 else 10 * Value(s[..|s| - 1]) + (s[|s| - 1] - '0') as nat
  }

  lemma {:induction false} DecimalRoundTrip(n: nat)
    ensures Value(Decimal(n)) == n
  {
    if n < 10 {
      assert Decimal(n)[..0] == "";
    } else {
      DecimalRoundTrip(n / 10);
      assert Decimal(n)[..|Decimal(n)| - 1] == Decimal(n / 10);
    }
  }

  /** A digit written last counts for one, and the digits before it for ten times as much. */
  lemma ValueAppend(s: string, c: char)
    requires AllDigits(s) && IsDigit(c)
    ensures Value(s + [c]) == 10 * Value(s) + (c as int - 48)
  {
    assert (s + [c])[..|s|] == s;
  }

  /** No number is printed with a leading zero, so each has one print only. */
  lemma {:induction false} NoLeadingZero(n: nat)
    ensures n > 0 ==> Decimal(n)[0] != '0'
    ensures n == 0 ==> Decimal(n) == "0"
  {
    if n >= 10 {
      NoLeadingZero(n / 10);
    }
  }

  const LARGEST_USIZE: nat := 0xFFFF_FFFF_FFFF_FFFF

  /** `str::parse::<usize>` on a 64-bit target: an optional plus sign, then digits that fit. */
  function ParseNumber(s: string): Option<nat> {
    var digits := if s != "" && s[0] == '+' then s[1..] else s;
    if digits == "" || !AllDigits(digits) || Value(digits) > LARGEST_USIZE then None else Some(Value(digits))
  }

  lemma ParsesPrinted(n: nat)
    ensures ParseNumber(Decimal(n)) == if n <= LARGEST_USIZE then Some(n) else None
  {
    DecimalRoundTrip(n);
    assert IsDigit(Decimal(n)[0]);
  }

  // ---- Provisional labels ----

  datatype Account = Account(id: string, provider: string, name: Option<string>, enabled: bool)

  function Candidate(provider: string, index: nat): string {
    provider + "-" + Decimal(index)
  }

  lemma CandidatesDiffer(provider: string, i: nat, j: nat)
    requires Candidate(provider, i) == Candidate(provider, j)
    ensures i == j
  {
    assert Decimal(i) == Candidate(provider, i)[|provider| + 1..];
    assert Decimal(j) == Candidate(provider, j)[|provider| + 1..];
    DecimalRoundTrip(i);
    DecimalRoundTrip(j);
  }

  predicate Used(accounts: seq<Account>, name: string) {
    exists i | 0 <= i < |accounts| :: accounts[i].name == Some(name)
  }

  ghost predicate FirstFree(provider: string, accounts: seq<Account>, index: nat) {
    && 1 <= index
    && !Used(accounts, Candidate(provider, index))
    && forall k | 1 <= k < index :: Used(accounts, Candidate(provider, k))
  }

  ghost function Labels(accounts: seq<Account>): (labels: set<string>)
    ensures |labels| <= |accounts|
    ensures forall i | 0 <= i < |accounts| && accounts[i].name.Some? :: accounts[i].name.value in labels
  {
    if accounts == [] then {} else
      var others := Labels(accounts[1..]);
      if accounts[0].name.Some? then others + {accounts[0].name.value} else others
  }

  ghost function Candidates(provider: string, count: nat): set<string> {
    set k | 1 <= k <= count :: Candidate(provider, k)
  }

  lemma {:induction false} CandidatesCounted(provider: string, count: nat)
    ensures |Candidates(provider, count)| == count
  {
    if count == 0 {
      assert Candidates(provider, 0) == {};
    } else {
      CandidatesCounted(provider, count - 1);
      var newest := Candidate(provider, count);
      forall k | 1 <= k <= count - 1 ensures Candidate(provider, k) != newest {
        if Candidate(provider, k) == newest { CandidatesDiffer(provider, k, count); }
      }
      assert newest !in Candidates(provider, count - 1);
      assert Candidates(provider, count) == Candidates(provider, count - 1) + {newest};
    }
  }

  lemma {:induction false} SubsetCounts(small: set<string>, large: set<string>)
    requires small <= large
    ensures |small| <= |large|
  {
    if small != {} {
      var x :| x in small;
      SubsetCounts(small - {x}, large - {x});
    }
  }

  /** The pigeonhole: accounts cannot use up more candidates than there are accounts. */
  lemma UsedUpCandidates(provider: string, accounts: seq<Account>, count: nat)
    requires forall k | 1 <= k <= count :: Used(accounts, Candidate(provider, k))
    ensures count <= |accounts|
  {
    CandidatesCounted(provider, count);
    SubsetCounts(Candidates(provider, count), Labels(accounts));
  }

  /**
   * `provisional_label`: the unused candidate with the smallest index, found within one try more than there are
   * accounts.
   */
  method ProvisionalLabel(provider: string, accounts: seq<Account>) returns (name: string)
    ensures exists n: nat :: n <= |accounts| + 1 && FirstFree(provider, accounts, n) && name == Candidate(provider, n)
    ensures exists n: nat ::
              && 1 <= n <= |accounts| + 1 && name == provider + "-" + Decimal(n)
              && (forall a | a in accounts :: a.name != Some(name))
              && (forall k | 1 <= k < n :: exists a :: a in accounts && a.name == Some(provider + "-" + Decimal(k)))
  {
    var index: nat := 1;
    name := Candidate(provider, index);
    while Used(accounts, name)
      invariant 1 <= index <= |accounts| + 1 && name == Candidate(provider, index)
      invariant forall k | 1 <= k < index :: Used(accounts, Candidate(provider, k))
      decreases |accounts| + 1 - index
    {
      UsedUpCandidates(provider, accounts, index);
      index := index + 1;
      name := Candidate(provider, index);
    }
    assert FirstFree(provider, accounts, index);
    forall k | 1 <= k < index ensures exists a :: a in accounts && a.name == Some(provider + "-" + Decimal(k)) {
      var i :| 0 <= i < |accounts| && accounts[i].name == Some(Candidate(provider, k));
      assert accounts[i] in accounts;
    }
    assert index <= |accounts| + 1 && name == provider + "-" + Decimal(index);
  }
}
