/**
 * Checkpoint file names written every twentieth epoch and the epoch number the
 * driver reads back out of a resume path (main.py). Python's str.find, slices
 * with negative bounds, str() of an int and int() of a string are written out.
 */
module Checkpoint {
  import opened Wrappers

  predicate IsDigit(c: char)
  {
    '0' <= c <= '9'
  }

  predicate AllDigits(s: string)
  {
    forall k :: 0 <= k < |s| ==> IsDigit(s[k])
  }

  function DigitChar(d: nat): (c: char)
    requires d < 10
    ensures IsDigit(c)
  {
    ('0' as int + d) as char
  }

  function DigitValue(c: char): (d: nat)
    requires IsDigit(c)
    ensures d < 10 && DigitChar(d) == c
  {
    (c as int - '0' as int)
  }

  /** Decimal digits of n, most significant first, no leading zero. */
  function NatToString(n: nat): (s: string)
    ensures |s| >= 1 && AllDigits(s)
    decreases n
  {
    if n < 10 then [DigitChar(n)] else NatToString(n / 10) + [DigitChar(n % 10)]
  }

  /** `str(i)` for an int. */
  function IntToString(i: int): (s: string)
    ensures |s| >= 1 && '.' !in s
  {
    if i < 0 then "-" + NatToString(-i) else NatToString(i)
  }

  /** The value of a digit string. */
  function DigitsValue(s: string): nat
    requires AllDigits(s)
  {
    if s == [] then 0 else 10 * DigitsValue(s[..|s| - 1]) + DigitValue(s[|s| - 1])
  }

  datatype ParseError = ValueError

  /** `int(s)` for an optional sign followed by one or more decimal digits. */
  function ParseInt(s: string): (r: Result<int, ParseError>)
    ensures r.Ok? ==> |s| >= 1
  {
    if |s| >= 1 && (s[0] == '-' || s[0] == '+') then
      (if |s| >= 2 && AllDigits(s[1..]) then
         var v: int := DigitsValue(s[1..]);
         Ok(if s[0] == '-' then -v else v)
       else Err(ValueError))
    else if |s| >= 1 && AllDigits(s) then Ok(DigitsValue(s))
    else Err(ValueError)
  }

  lemma {:induction false} NatToStringValue(n: nat)
    ensures DigitsValue(NatToString(n)) == n
    decreases n
  {
    if n >= 10 {
      NatToStringValue(n / 10);
      var s := NatToString(n);
      assert s[..|s| - 1] == NatToString(n / 10);
      assert DigitValue(s[|s| - 1]) == n % 10;
    }
  }

  /** `int(str(i)) == i`. */
  lemma ParseIntOfIntToString(i: int)
    ensures ParseInt(IntToString(i)) == Ok(i)
  {
    NatToStringValue(if i < 0 then -i else i);
    if i < 0 {
      assert IntToString(i)[1..] == NatToString(-i);
    }
  }

  /** `pat` starts at index p of s. */
  predicate MatchAt(s: string, pat: string, p: int)
  {
    0 <= p && p + |pat| <= |s| && s[p..p + |pat|] == pat
  }

  /** `s.find(pat, from)`: the first index at or after `from` where `pat` starts, or -1. */
  function FindFrom(s: string, pat: string, from: nat): (r: int)
    ensures r == -1 || (from <= r && MatchAt(s, pat, r))
    ensures r != -1 ==> forall p :: from <= p < r ==> !MatchAt(s, pat, p)
    ensures r == -1 ==> forall p :: from <= p ==> !MatchAt(s, pat, p)
    decreases |s| - from
  {
    if from + |pat| > |s| then -1
    else if s[from..from + |pat|] == pat then from
    else FindFrom(s, pat, from + 1)
  }

  function Find(s: string, pat: string): int
  {
    FindFrom(s, pat, 0)
  }

  predicate Occurs(pat: string, s: string)
  {
    exists p :: 0 <= p <= |s| && MatchAt(s, pat, p)
  }

  /** Python's normalisation of a slice bound: negative counts from the end, then clamp. */
  function SliceBound(n: int, len: nat): (r: nat)
    ensures r <= len
  {
    if n < 0 then (if n + len < 0 then 0 else n + len) else if n > len then len else n
  }

  /** `s[a:]`. */
  function SliceFrom(s: string, a: int): string
  {
    s[SliceBound(a, |s|)..]
  }

  /** `s[:b]`. */
  function SliceTo(s: string, b: int): string
  {
    s[..SliceBound(b, |s|)]
  }

  /** The file name written after an evaluated epoch: `{model}.epoch={epoch}.lr={lr}.layer=...pth`. */
  function CheckpointName(model: string, epoch: int, lr: string, layers: int, heads: int, hidden: int, maxlen: int): string
  {
    model + ".epoch=" + IntToString(epoch) + Settings(lr, layers, heads, hidden, maxlen)
  }

  /** The part of the name after the epoch: `.lr={lr}.layer={layers}.head={heads}.hidden={hidden}.maxlen={maxlen}.pth`. */
  function Settings(lr: string, layers: int, heads: int, hidden: int, maxlen: int): (r: string)
    ensures |r| >= 1 && r[0] == '.'
  {
    ".lr=" + lr + ".layer=" + IntToString(layers) + ".head=" + IntToString(heads)
      + ".hidden=" + IntToString(hidden) + ".maxlen=" + IntToString(maxlen) + ".pth"
  }

  /**
   * `int(tail[:tail.find('.')]) + 1` with `tail = path[path.find('epoch=') + 6:]`:
   * the epoch to resume from. A missing "epoch=" makes find return -1 and the
   * slice start at 5; a missing '.' makes the slice drop the last character.
   */
  function ResumeEpochStart(path: string): Result<int, ParseError>
  {
    var tail := SliceFrom(path, Find(path, "epoch=") + 6);
    match ParseInt(SliceTo(tail, Find(tail, ".")))
    case Ok(e) => Ok(e + 1)
    case Err(err) => Err(err)
  }

  lemma FindIs(s: string, pat: string, q: nat)
    requires MatchAt(s, pat, q)
    requires forall p :: 0 <= p < q ==> !MatchAt(s, pat, p)
    ensures Find(s, pat) == q
  {
  }

  /** The first "epoch=" of `pm.epoch=...` is the one after pm, when pm holds none. */
  lemma MarkerFound(pm: string, after: string)
    requires !Occurs("epoch=", pm)
    ensures Find(pm + ".epoch=" + after, "epoch=") == |pm| + 1
  {
    var path := pm + ".epoch=" + after;
    var q := |pm| + 1;
    assert path[q..q + 6] == "epoch=";
    forall p | 0 <= p < q ensures !MatchAt(path, "epoch=", p) {
      if p + 6 <= |pm| {
        assert path[p..p + 6] == pm[p..p + 6];
        assert !MatchAt(pm, "epoch=", p);
      } else {
        assert path[p + 5] == (pm + ".epoch")[p + 5];
      }
    }
    FindIs(path, "epoch=", q);
  }

  /** The first '.' of `digits + rest` is rest's leading '.', when digits holds none. */
  lemma DotFound(digits: string, rest: string)
    requires '.' !in digits && |rest| >= 1 && rest[0] == '.'
    ensures Find(digits + rest, ".") == |digits|
  {
    var tail := digits + rest;
    assert tail[|digits|..|digits| + 1] == ".";
    forall p | 0 <= p < |digits| ensures !MatchAt(tail, ".", p) {
      assert tail[p] == digits[p];
    }
    FindIs(tail, ".", |digits|);
  }

  lemma Regroup(a: string, b: string, c: string, d: string, e: string)
    ensures a + (b + c + d + e) == (a + b) + c + (d + e)
  {
  }

  /**
   * Resuming from a checkpoint written for epoch e starts at epoch e + 1,
   * whatever directory it sits in, provided "epoch=" does not already occur in
   * the directory part or the model name.
   */
  lemma ResumeRoundTrip(dir: string, model: string, epoch: int, lr: string, layers: int, heads: int, hidden: int, maxlen: int)
    requires !Occurs("epoch=", dir + model)
    ensures ResumeEpochStart(dir + CheckpointName(model, epoch, lr, layers, heads, hidden, maxlen)) == Ok(epoch + 1)
  {
    var pm := dir + model;
    var digits := IntToString(epoch);
    var rest := Settings(lr, layers, heads, hidden, maxlen);
    var path := dir + CheckpointName(model, epoch, lr, layers, heads, hidden, maxlen);
    Regroup(dir, model, ".epoch=", digits, rest);
    MarkerFound(pm, digits + rest);
    var tail := SliceFrom(path, |pm| + 1 + 6);
    assert tail == digits + rest;
    DotFound(digits, rest);
    assert SliceTo(tail, |digits|) == digits;
    ParseIntOfIntToString(epoch);
  }
}
