/** Names of the store's keys and channels. */
module Keys {

  // ----- Decimal printing and parsing of indices

  function Digit(d: nat): char
    requires d < 10
  {
    "0123456789"[d]
  }

  function Decimal(n: nat): (s: string)
    ensures s != [] && ':' !in s && '+' !in s
  {
    if n < 10 then [Digit(n)] else Decimal(n / 10) + [Digit(n % 10)]
  }

  /** The number a string of digits denotes, or -1. */
  function ParseDecimal(s: string): (r: int)
    ensures -1 <= r
  {
    if s == [] || !('0' <= s[|s| - 1] <= '9') then -1
    else
      var low := (s[|s| - 1] - '0') as int;
      if |s| == 1 then low
      else if ParseDecimal(s[..|s| - 1]) == -1 then -1
      else 10 * ParseDecimal(s[..|s| - 1]) + low
  }

  lemma {:induction false} ParseOfDecimal(n: nat)
    ensures ParseDecimal(Decimal(n)) == n
  {
    var s := Decimal(n);
    if 10 <= n {
      ParseOfDecimal(n / 10);
      assert s[..|s| - 1] == Decimal(n / 10);
    }
  }

  predicate AllDigits(s: string) {
    s != [] && forall k :: 0 <= k < |s| ==> '0' <= s[k] <= '9'
  }

  /** Exactly the non-empty strings of digits denote numbers. */
  lemma {:induction false} DigitsParse(s: string)
    ensures ParseDecimal(s) != -1 <==> AllDigits(s)
  {
    if 2 <= |s| {
      DigitsParse(s[..|s| - 1]);
      assert s == s[..|s| - 1] + [s[|s| - 1]];
    }
  }

  lemma DigitOf(c: char)
    requires '0' <= c <= '9'
    ensures Digit((c - '0') as int) == c
  {
  }

  lemma DecimalStep(p: nat, low: nat)
    requires 0 < p && low < 10
    ensures Decimal(10 * p + low) == Decimal(p) + [Digit(low)]
  {
  }

  lemma PrintedDigit(s: string)
    requires AllDigits(s) && |s| == 1
    ensures 0 <= ParseDecimal(s) < 10 && Decimal(ParseDecimal(s)) == s && (s[0] != '0' ==> 0 < ParseDecimal(s))
  {
    DigitOf(s[0]);
  }

  lemma ParseStep(s: string)
    requires AllDigits(s) && 2 <= |s|
    ensures AllDigits(s[..|s| - 1]) && AllDigits([s[|s| - 1]]) && ParseDecimal(s[..|s| - 1]) >= 0
    ensures ParseDecimal(s) == 10 * ParseDecimal(s[..|s| - 1]) + ParseDecimal([s[|s| - 1]])
  {
    DigitsParse(s[..|s| - 1]);
  }

  /** Which number: without a leading zero, the one that is printed like that. */
  lemma {:induction false} PrintedAgain(s: string)
    requires AllDigits(s) && (|s| == 1 || s[0] != '0')
    ensures 0 <= ParseDecimal(s) && (s[0] != '0' ==> 0 < ParseDecimal(s))
    ensures Decimal(ParseDecimal(s)) == s
  {
    if |s| == 1 {
      PrintedDigit(s);
    } else {
      var front, last := s[..|s| - 1], [s[|s| - 1]];
      ParseStep(s);
      PrintedDigit(last);
      assert front[0] == s[0];
      PrintedAgain(front);
      DecimalStep(ParseDecimal(front), ParseDecimal(last));
      assert Decimal(ParseDecimal(last)) == [Digit(ParseDecimal(last))];
      assert s == front + last;
    }
  }

  /** Leading zeros do not matter. */
  lemma {:induction false} LeadingZero(s: string)
    requires AllDigits(s)
    ensures ParseDecimal("0" + s) == ParseDecimal(s)
  {
    var t, front := "0" + s, s[..|s| - 1];
    DigitsParse(s);
    assert t[..|t| - 1] == "0" + front && t[|t| - 1] == s[|s| - 1];
    if |s| == 1 {
      assert t[..|t| - 1] == "0" && ParseDecimal("0") == 0;
    } else {
      LeadingZero(front);
      DigitsParse(front);
    }
  }

  const USIZE_MAX: nat := 0xFFFF_FFFF_FFFF_FFFF

  /** `str::parse::<usize>`: a plus sign is accepted, a number beyond 64 bits is not. */
  function ParseUsize(s: string): (r: int)
    ensures -1 <= r <= USIZE_MAX
  {
    var n := ParseDecimal(if s != [] && s[0] == '+' then s[1..] else s);
    if n <= USIZE_MAX then n else -1
  }

  /** A printed rank is parsed back exactly if it fits the width. */
  lemma ParseUsizeOfDecimal(n: nat)
    ensures ParseUsize(Decimal(n)) == if n <= USIZE_MAX then n else -1
  {
    ParseOfDecimal(n);
    assert Decimal(n)[0] in Decimal(n);
  }

  /** Exactly the numbers that fit, with or without a plus sign, are ranks. */
  lemma UsizeParses(s: string)
    ensures var digits := if s != [] && s[0] == '+' then s[1..] else s;
            && (ParseUsize(s) != -1 <==> AllDigits(digits) && ParseDecimal(digits) <= 0xFFFF_FFFF_FFFF_FFFF)
            && (ParseUsize(s) != -1 ==> ParseUsize(s) == ParseDecimal(digits))
  {
    DigitsParse(if s != [] && s[0] == '+' then s[1..] else s);
  }

  lemma DecimalIsInjective(m: nat, n: nat)
    requires Decimal(m) == Decimal(n)
    ensures m == n
  {
    ParseOfDecimal(m);
    ParseOfDecimal(n);
  }

  // ----- Keys and channels

  function ResultKey(jobId: string): string { "result:" + jobId }

  function SliceKey(jobId: string, sliceId: nat): string { "result:" + jobId + ":" + Decimal(sliceId) }

  function MetadataKey(jobId: string): string { "metadata:" + jobId }

  function ProgressKey(jobId: string): string { "progress:" + jobId }

  function DoneChannel(jobId: string): string { "slice_done:" + jobId }

  /** What the names look like. */
  lemma Names()
    ensures ResultKey("j") == "result:j" && SliceKey("j", 17) == "result:j:17"
    ensures MetadataKey("j") == "metadata:j" && ProgressKey("j") == "progress:j" && DoneChannel("j") == "slice_done:j"
  {
    assert Decimal(1) == "1" && Decimal(17) == "1" + "7" == "17";
    assert "result:" + "j" == "result:j" && "result:" + "j" + ":" + "17" == "result:j:17";
    assert "metadata:" + "j" == "metadata:j" && "progress:" + "j" == "progress:j";
    assert "slice_done:" + "j" == "slice_done:j";
  }

  datatype Option<T> = None | Some(value: T)

  /** `strip_prefix`. */
  function StripPrefix(s: string, prefix: string): Option<string> {
    if prefix <= s then Some(s[|prefix|..]) else None
  }

  lemma SplitAtLastColon(a: string, b: string, x: string, y: string)
    requires ':' !in x && ':' !in y
    requires a + ":" + x == b + ":" + y
    ensures a == b && x == y
  {
    LastColon(a, x);
    LastColon(b, y);
    var s := a + ":" + x;
    assert |a| == |b|;
    assert a == s[..|a|] && b == s[..|b|];
    assert x == s[|a| + 1..] && y == s[|b| + 1..];
  }

  lemma LastColon(a: string, x: string)
    requires ':' !in x
    ensures var s := a + ":" + x;
            s[|a|] == ':' && forall k :: |a| < k < |s| ==> s[k] != ':'
  {
  }

  /** The slice index starts behind the last colon, so slice keys are injective even for job ids with colons in them. */
  lemma SliceKeyIsInjective(job: string, i: nat, job': string, i': nat)
    requires SliceKey(job, i) == SliceKey(job', i')
    ensures job == job' && i == i'
  {
    SplitAtLastColon("result:" + job, "result:" + job', Decimal(i), Decimal(i'));
    assert job == ("result:" + job)[7..] && job' == ("result:" + job')[7..];
    DecimalIsInjective(i, i');
  }

  /** A result key is a slice key exactly when the one job's id is the other's followed by a colon and the index. */
  lemma ResultKeyMeetsSliceKey(job: string, job': string, i: nat)
    ensures ResultKey(job) == SliceKey(job', i) <==> job == job' + ":" + Decimal(i)
    ensures ResultKey(job) == SliceKey(job', i) ==> ':' in job
  {
    LastColon(job', Decimal(i));
    assert ResultKey(job)[7..] == job;
    assert SliceKey(job', i)[7..] == job' + ":" + Decimal(i);
    assert SliceKey(job', i) == "result:" + (job' + ":" + Decimal(i));
  }

  lemma ColonIsNeeded()
    ensures ResultKey("a:0") == SliceKey("a", 0)
  {
    assert Decimal(0) == "0";
    assert "result:" + "a:0" == "result:a:0";
    assert "result:" + "a" + ":" + "0" == "result:a:0";
  }

  datatype KeyUse = Result(job: string) | Slice(job: string, index: nat) | Metadata(job: string) | Progress(job: string)

  function KeyOf(u: KeyUse): string {
    match u
    case Result(job) => ResultKey(job)
    case Slice(job, i) => SliceKey(job, i)
    case Metadata(job) => MetadataKey(job)
    case Progress(job) => ProgressKey(job)
  }

  /** When the job ids of results are free of colons, a key determines its family, its job and its index. */
  lemma KeysAreDisjoint(u: KeyUse, v: KeyUse)
    requires u.Result? ==> ':' !in u.job
    requires v.Result? ==> ':' !in v.job
    requires KeyOf(u) == KeyOf(v)
    ensures u == v
  {
    assert KeyOf(u)[0] == KeyOf(v)[0];
    if u.Result? && v.Slice? {
      ResultKeyMeetsSliceKey(u.job, v.job, v.index);
    } else if v.Result? && u.Slice? {
      ResultKeyMeetsSliceKey(v.job, u.job, u.index);
    } else if u.Slice? && v.Slice? {
      SliceKeyIsInjective(u.job, u.index, v.job, v.index);
    } else {
      assert u.Result? ==> u.job == KeyOf(u)[7..];
      assert v.Result? ==> v.job == KeyOf(v)[7..];
      assert u.Metadata? || u.Progress? ==> u.job == KeyOf(u)[9..];
      assert v.Metadata? || v.Progress? ==> v.job == KeyOf(v)[9..];
    }
  }

  /** The subscriber recovers exactly the job a worker published for; a foreign channel name is ignored. */
  lemma ChannelRoundTrip(job: string, channel: string)
    ensures StripPrefix(channel, "slice_done:") == Some(job) <==> channel == DoneChannel(job)
  {
    var prefix := "slice_done:";
    assert DoneChannel(job)[|prefix|..] == job;
    if prefix <= channel {
      assert channel == prefix + channel[|prefix|..];
    }
  }
}
