/** The text keys of the dead-letter queue: `click:<code>:<time>` and `analytics:<code>:<time>`. */
module DeadLetterKeys {
  import opened PipelineModel

  function Digit(n: nat): char
    requires n < 10
  {
    ('0' as int + n) as char
  }

  function Digits(n: nat): (text: string)
    ensures text != [] && ':' !in text && '-' !in text
    ensures |text| == 1 <==> n < 10
  {
    if n < 10 then [Digit(n)] else Digits(n / 10) + [Digit(n % 10)]
  }

  function NumberText(n: int): (text: string)
    ensures text != [] && ':' !in text
    ensures text[0] == '-' <==> n < 0
  {
    if n < 0 then "-" + Digits(-n) else Digits(n)
  }

  const CLICK_PREFIX := "click:"
  const ANALYTICS_PREFIX := "analytics:"

  function Prefix(kind: Kind): string {
    if kind.Click? then CLICK_PREFIX else ANALYTICS_PREFIX
  }

  function KeyText(k: Key): string {
    Prefix(k.kind) + (k.code + (":" + NumberText(k.time)))
  }

  /** Reading digits as a decimal number. */
  function Value(text: string): int {
    if text == [] then 0 else 10 * Value(text[..|text| - 1]) + (text[|text| - 1] as int - '0' as int)
  }

  lemma {:induction false} DigitsRead(n: nat)
    ensures Value(Digits(n)) == n
  {
    var text := Digits(n);
    if n < 10 {
      assert text[..0] == [];
    } else {
      DigitsRead(n / 10);
      assert text[..|text| - 1] == Digits(n / 10);
    }
  }

  lemma {:induction false} DigitsInjective(a: nat, b: nat)
    requires Digits(a) == Digits(b)
    ensures a == b
  {
    if a < 10 {
      assert Digits(a) == [Digit(a)] && Digits(b) == [Digit(b)];
      assert Digits(a)[0] == Digits(b)[0];
    } else {
      var m, n := |Digits(a / 10)|, |Digits(b / 10)|;
      assert Digits(a)[m] == Digits(b)[n];
      assert Digits(a)[..m] == Digits(a / 10) && Digits(b)[..n] == Digits(b / 10);
      DigitsInjective(a / 10, b / 10);
    }
  }

  lemma NumberTextInjective(a: int, b: int)
    requires NumberText(a) == NumberText(b)
    ensures a == b
  {
    if a < 0 && b < 0 {
      assert NumberText(a)[1..] == Digits(-a) && NumberText(b)[1..] == Digits(-b);
      DigitsInjective(-a, -b);
    } else if 0 <= a && 0 <= b {
      DigitsInjective(a, b);
    }
  }

  /** The part after the last colon is never the shorter one. */
  lemma TailNotShorter(x: string, s: string, y: string, t: string)
    requires x + (":" + s) == y + (":" + t) && ':' !in t
    ensures |t| <= |s|
  {
    var whole := x + (":" + s);
    assert whole[|x|] == ':';
    assert forall i :: |y| < i < |whole| ==> whole[i] == t[i - |y| - 1];
  }

  lemma CancelPrefix(p: string, a: string, b: string)
    requires p + a == p + b
    ensures a == b
  {
    assert (p + a)[|p|..] == a && (p + b)[|p|..] == b;
  }

  lemma PrefixTellsKind(k: Key)
    ensures "click:" <= KeyText(k) <==> k.kind.Click?
    ensures "analytics:" <= KeyText(k) <==> k.kind.Analytics?
  {
    assert KeyText(k)[0] == Prefix(k.kind)[0];
    assert Prefix(k.kind) <= KeyText(k);
  }

  /** Two events share a text key exactly when they agree on kind, code and time, colons in codes or not. */
  lemma KeyTextInjective(a: Key, b: Key)
    ensures KeyText(a) == KeyText(b) <==> a == b
  {
    if KeyText(a) == KeyText(b) {
      PrefixTellsKind(a);
      PrefixTellsKind(b);
      CancelPrefix(Prefix(a.kind), a.code + (":" + NumberText(a.time)), b.code + (":" + NumberText(b.time)));
      TailNotShorter(a.code, NumberText(a.time), b.code, NumberText(b.time));
      TailNotShorter(b.code, NumberText(b.time), a.code, NumberText(a.time));
      var whole := a.code + (":" + NumberText(a.time));
      assert whole[..|a.code|] == a.code && whole[..|b.code|] == b.code;
      assert whole[|a.code| + 1..] == NumberText(a.time) && whole[|b.code| + 1..] == NumberText(b.time);
      NumberTextInjective(a.time, b.time);
    }
  }
}
