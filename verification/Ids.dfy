/** Document identity: nextID in app/internal/seeder/generator/common.go. */
module Ids {
  import opened Options
  import opened Decimal
  import opened Stats

  function FormatInt(n: int): string { if n < 0 then ['-'] + Digits(-n) else Digits(n) }

  /** prefix-nanos-%06d */
  function Id(prefix: string, clock: int, counter: nat): string {
    prefix + ['-'] + FormatInt(clock) + ['-'] + Pad(counter, 6)
  }

  /** A generator's prefix and its shared uint64 counter. */
  class IdSource {
    const prefix: string
    var counter: nat

    constructor (prefix: string)
      ensures this.prefix == prefix && counter == 0
    {
      this.prefix := prefix;
      counter := 0;
    }

    method NextId(clock: int) returns (id: string)
      modifies this
      ensures counter == Wrap(old(counter) + 1)
      ensures id == Id(prefix, clock, counter)
    {
      counter := Wrap(counter + 1);
      id := prefix + ['-'] + FormatInt(clock) + ['-'] + Pad(counter, 6);
    }
  }

  /** The position of the last dash, -1 if there is none. */
  function LastDash(s: string): (i: int)
    ensures -1 <= i < |s|
  {
    if s == [] then -1 else if s[|s| - 1] == '-' then |s| - 1 else LastDash(s[..|s| - 1])
  }

  function ParseInt(s: string): Option<int> {
    if s != [] && AllDigits(s) then Some(Value(s))
    else if |s| > 1 && s[0] == '-' && AllDigits(s[1..]) then Some(-(Value(s[1..]) as int))
    else None
  }

  /** Reads an id back: the counter follows the last dash, the clock lies between it and the prefix. */
  function Parse(prefix: string, id: string): Option<(int, nat)> {
    var dash := LastDash(id);
    if dash <= |prefix| then None
    else
      var clock := ParseInt(id[|prefix| + 1..dash]);
      var tail := id[dash + 1..];
      if prefix <= id && id[|prefix|] == '-' && clock.Some? && tail != [] && AllDigits(tail)
      then Some((clock.value, Value(tail)))
      else None
  }

  lemma {:induction false} LastDashBeforeDigits(s: string, digits: string)
    requires AllDigits(digits)
    ensures LastDash(s + ['-'] + digits) == |s|
  {
    var whole := s + ['-'] + digits;
    if digits != [] {
      var n := |digits| - 1;
      LastDashBeforeDigits(s, digits[..n]);
      assert whole[..|whole| - 1] == s + ['-'] + digits[..n];
      assert IsDigit(digits[n]);
    }
  }

  lemma ParseIntOfFormat(n: int)
    ensures ParseInt(FormatInt(n)) == Some(n)
  {
    if n < 0 {
      ValueOfDigits(-n);
      assert FormatInt(n)[1..] == Digits(-n);
      assert !IsDigit(FormatInt(n)[0]);
    } else {
      ValueOfDigits(n);
    }
  }

  /** Any prefix, any clock reading and any counter, padded or beyond six digits, are read back. */
  lemma RoundTrip(prefix: string, clock: int, counter: nat)
    ensures Parse(prefix, Id(prefix, clock, counter)) == Some((clock, counter))
  {
    var middle, tail := FormatInt(clock), Pad(counter, 6);
    var head := prefix + ['-'] + middle;
    var id := Id(prefix, clock, counter);
    assert id == head + ['-'] + tail;
    LastDashBeforeDigits(head, tail);
    assert id[|prefix| + 1..|head|] == middle;
    assert id[|head| + 1..] == tail;
    ParseIntOfFormat(clock);
    PadProperties(counter, 6);
  }

  /** The part after the last dash is the counter: six digits below a million, exactly as many as it has
      from there on. */
  lemma CounterWidth(prefix: string, clock: int, counter: nat)
    ensures var id := Id(prefix, clock, counter);
      var tail := id[LastDash(id) + 1..];
      && AllDigits(tail) && Value(tail) == counter
      && (counter < 1_000_000 ==> |tail| == 6)
      && (counter >= 1_000_000 ==> |tail| > 6 && tail[0] != '0')
  {
    var tail := Pad(counter, 6);
    var head := prefix + ['-'] + FormatInt(clock);
    assert Id(prefix, clock, counter) == head + ['-'] + tail;
    LastDashBeforeDigits(head, tail);
    assert Id(prefix, clock, counter)[|head| + 1..] == tail;
    PadProperties(counter, 6);
    SixDigits();
    if counter >= 1_000_000 {
      DigitsAtLeast(counter, 6);
      NoLeadingZero(counter);
    }
  }

  /** Two ids of one generator collide exactly when the clock readings agree and the counters agree
      modulo 2^64; below 2^64 documents no clock behaviour makes them collide. */
  lemma CollideExactly(prefix: string, clock1: int, n1: nat, clock2: int, n2: nat)
    ensures Id(prefix, clock1, Wrap(n1)) == Id(prefix, clock2, Wrap(n2)) <==> clock1 == clock2 && Wrap(n1) == Wrap(n2)
    ensures n1 < TWO_TO_64 && n2 < TWO_TO_64 && n1 != n2 ==>
              Id(prefix, clock1, Wrap(n1)) != Id(prefix, clock2, Wrap(n2))
  {
    RoundTrip(prefix, clock1, Wrap(n1));
    RoundTrip(prefix, clock2, Wrap(n2));
  }
}
