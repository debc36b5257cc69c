/** Reading back what `"|".join` and `str` made of a row's fields. */
module JoinedFields {
  import opened FileChunks

  predicate NoBar(s: string) { forall i :: 0 <= i < |s| ==> s[i] != '|' }

  /** The number of separators in a text. */
  function Bars(s: string): nat {
    if s == "" then 0 else (if s[0] == '|' then 1 else 0) + Bars(s[1..])
  }

  lemma {:induction false} BarsOfConcat(s: string, t: string)
    ensures Bars(s + t) == Bars(s) + Bars(t)
  {
    if s == "" {
      assert s + t == t;
    } else {
      assert (s + t)[1..] == s[1..] + t;
      BarsOfConcat(s[1..], t);
    }
  }

  lemma {:induction false} NoBarIff(s: string)
    ensures NoBar(s) <==> Bars(s) == 0
  {
    if s != "" {
      NoBarIff(s[1..]);
      assert s == [s[0]] + s[1..];
    }
  }

  function SumOfBars(fields: seq<string>): nat {
    if fields == [] then 0 else Bars(fields[0]) + SumOfBars(fields[1..])
  }

  lemma {:induction false} JoinWithSmall(a: seq<string>)
    ensures |a| == 1 ==> JoinWith('|', a) == a[0]
    ensures |a| > 1 ==> JoinWith('|', a) == a[0] + "|" + JoinWith('|', a[1..])
  {
  }

  lemma {:induction false} BarsOfJoined(a: seq<string>)
    requires a != []
    ensures Bars(JoinWith('|', a)) == SumOfBars(a) + |a| - 1
  {
    JoinWithSmall(a);
    hide JoinWith, Bars;
    if |a| == 1 {
      assert SumOfBars(a[1..]) == 0;
    } else {
      BarsOfJoined(a[1..]);
      BarsOfConcat(a[0] + "|", JoinWith('|', a[1..]));
      BarsOfConcat(a[0], "|");
      assert Bars("|") == 1 by { OneBar(); }
    }
  }

  lemma {:induction false} OneBar()
    ensures Bars("|") == 1
  {
    assert Bars("|"[1..]) == 0;
  }

  /** When only one field holds the separator, it holds them all. */
  lemma {:induction false} OneCarriesBars(a: seq<string>, free: nat)
    requires forall i :: 0 <= i < |a| && i != free ==> NoBar(a[i])
    ensures SumOfBars(a) == if free < |a| then Bars(a[free]) else 0
  {
    hide Bars, NoBar;
    if a != [] {
      OneCarriesBars(a[1..], if free == 0 then |a| else free - 1);
      NoBarIff(a[0]);
    }
  }

  lemma {:induction false} JoinWithLast(a: seq<string>)
    requires |a| > 1
    ensures JoinWith('|', a) == JoinWith('|', a[..|a| - 1]) + "|" + a[|a| - 1]
  {
    var front := a[..|a| - 1];
    JoinWithSmall(a);
    JoinWithSmall(a[1..]);
    JoinWithSmall(front);
    hide JoinWith;
    if |a| > 2 {
      JoinWithLast(a[1..]);
      assert a[1..][..|a| - 2] == front[1..];
    }
  }

  /** Joined fields can be read back from the left when each but the last has as many separators on both sides. */
  lemma {:induction false} JoinWithInjective(a: seq<string>, b: seq<string>)
    requires |a| == |b| && JoinWith('|', a) == JoinWith('|', b)
    requires forall i :: 0 <= i < |a| - 1 ==> Bars(a[i]) == Bars(b[i])
    ensures a == b
  {
    JoinWithSmall(a);
    JoinWithSmall(b);
    hide JoinWith, Bars;
    if |a| > 1 {
      SplitAtBar(a[0], JoinWith('|', a[1..]), b[0], JoinWith('|', b[1..]));
      JoinWithInjective(a[1..], b[1..]);
    }
    assert a == (if |a| > 0 then [a[0]] + a[1..] else []) && b == (if |b| > 0 then [b[0]] + b[1..] else []);
  }

  lemma {:induction false} SplitAtBar(x: string, rx: string, y: string, ry: string)
    requires Bars(x) == Bars(y) && x + "|" + rx == y + "|" + ry
    ensures x == y && rx == ry
  {
    if |x| < |y| {
      ShorterHasFewerBars(x, rx, y, ry);
    } else if |y| < |x| {
      ShorterHasFewerBars(y, ry, x, rx);
    }
    var s, t := x + "|" + rx, y + "|" + ry;
    assert s[..|x|] == x && t[..|y|] == y && s[|x| + 1..] == rx && t[|y| + 1..] == ry;
  }

  lemma {:induction false} ShorterHasFewerBars(x: string, rx: string, y: string, ry: string)
    requires |x| < |y| && x + "|" + rx == y + "|" + ry
    ensures Bars(x) < Bars(y)
  {
    var s, t := x + "|" + rx, y + "|" + ry;
    assert y == t[..|y|] == s[..|x| + 1] + y[|x| + 1..];
    assert s[..|x| + 1] == x + "|";
    BarsOfConcat(x + "|", y[|x| + 1..]);
    BarsOfConcat(x, "|");
    OneBar();
  }

  function ReadDecimal(s: string): int {
    if s == "" then 0 else 10 * ReadDecimal(s[..|s| - 1]) + (s[|s| - 1] as int - '0' as int)
  }

  lemma {:induction false} ReadOfDecimal(n: nat)
    ensures ReadDecimal(Decimal(n)) == n
  {
    var s := Decimal(n);
    if n >= 10 {
      assert s[..|s| - 1] == Decimal(n / 10);
      ReadOfDecimal(n / 10);
    }
  }

  /** Decimals have no leading zero: one digit below ten, and a first digit that is not zero from ten on. */
  lemma {:induction false} DecimalIs(n: nat)
    ensures |Decimal(n)| == 1 <==> n < 10
    ensures Decimal(n)[0] == '0' <==> n == 0
  {
    if n >= 10 {
      DecimalIs(n / 10);
    }
  }
}
