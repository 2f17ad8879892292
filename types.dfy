/** Values shared by the merge-gate model: optional values, the error
    values the collaborators hand back, the candidate pull request, and the
    events that make up the trace of what the gate did. */
module Types {

  datatype Option<+T> = None | Some(value: T)

  /** An error value returned by a collaborator; `text` is what its
      Error() method would print. */
  datatype Error = Error(text: string)

  /** The candidate pull request; only its number is consulted. */
  datatype PullRequest = PullRequest(number: int)

  /** One observable step of the gate, in the order it happened: the
      CurrentPR field being set and cleared, and every call into the build
      server, the clock's sleep and the code-review host. */
  datatype Call =
    | SetCurrentPR(pr: PullRequest)
    | ClearCurrentPR
    | IsBuildStable(job: string)
    | Sleep(seconds: nat)
    | WriteComment(number: int, body: string)
    | WaitForPending(number: int)
    | ValidateStatus(number: int, exclude: seq<string>, requireSuccess: bool)
    | MergePR(number: int, actor: string)

  /** The decimal rendering of an integer, as `%d` prints it. */
  function Decimal(n: int): string
  {
    if n < 0 then "-" + Digits(-n) else Digits(n)
  }

  function DigitChar(d: nat): char
    requires d < 10
  {
    (('0' as int) + d) as char
  }

  function Digits(n: nat): string
  {
    if n < 10 then [DigitChar(n)] else Digits(n / 10) + [DigitChar(n % 10)]
  }

  /** The digits of a natural number: never empty, decimal digits only. */
  lemma {:induction false} DigitsShape(n: nat)
    ensures |Digits(n)| > 0
    ensures forall i :: 0 <= i < |Digits(n)| ==> '0' <= Digits(n)[i] <= '9'
    decreases n
  {
    if n >= 10 {
      DigitsShape(n / 10);
    }
  }

  predicate AllDigits(s: string)
  {
    forall i :: 0 <= i < |s| ==> '0' <= s[i] <= '9'
  }

  /** Reading a string of decimal digits back as a number. */
  function ReadDigits(s: string): nat
    requires AllDigits(s)
  {
    if s == [] then 0
    else ReadDigits(s[..|s| - 1]) * 10 + (s[|s| - 1] as int - '0' as int)
  }

  /** Reading `%d` output back: an optional minus sign, then digits. */
  function ReadDecimal(s: string): int
    requires s != [] && (if s[0] == '-' then AllDigits(s[1..]) else AllDigits(s))
  {
    if s[0] == '-' then -(ReadDigits(s[1..]) as int) else ReadDigits(s)
  }

  /** Reading the digits of n back gives n. */
  lemma {:induction false} DigitsRoundTrip(n: nat)
    ensures AllDigits(Digits(n)) && ReadDigits(Digits(n)) == n
    decreases n
  {
    DigitsShape(n);
    if n >= 10 {
      DigitsRoundTrip(n / 10);
      var s := Digits(n);
      assert s[..|s| - 1] == Digits(n / 10);
    }
  }

  /** Reading `%d` output back gives the number printed, so two numbers
      print alike only when they are equal. */
  lemma DecimalRoundTrip(n: int)
    ensures Decimal(n) != []
    ensures Decimal(n)[0] == '-' ==> AllDigits(Decimal(n)[1..])
    ensures Decimal(n)[0] != '-' ==> AllDigits(Decimal(n))
    ensures ReadDecimal(Decimal(n)) == n
  {
    if n < 0 {
      DigitsRoundTrip(-n);
      assert Decimal(n)[1..] == Digits(-n);
    } else {
      DigitsRoundTrip(n);
    }
  }

  lemma DecimalInjective(m: int, n: int)
    ensures Decimal(m) == Decimal(n) ==> m == n
  {
    DecimalRoundTrip(m);
    DecimalRoundTrip(n);
  }

  /** Regrouping a concatenation, for the traces and logs that grow at
      their end. */
  lemma AppendAssoc<T>(a: seq<T>, b: seq<T>, c: seq<T>)
    ensures (a + b) + c == a + (b + c)
  {
  }
}
