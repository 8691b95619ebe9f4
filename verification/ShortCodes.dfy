/** Short code generation: six random bytes, an alphabet of 63 characters, and a mask for 64. */
module ShortCodes {
  import opened Common
  import U = UrlStore

  const LOWER := "abcdefghijklmnopqrstuvwxyz"
  const UPPER := "ABCDEFGHIJKLMNOPQRSTUVWXYZ"
  const DIGITS := "0123456789"

  function Alphabet(): (a: string)
    ensures |a| == 63 && ':' !in a && 'a' in a && 'l' in a
  {
    var a := LOWER + UPPER + "-" + DIGITS;
    assert a[0] == LOWER[0] == 'a' && a[11] == LOWER[11] == 'l';
    a
  }

  predicate UrlFriendly(c: char) {
    'a' <= c <= 'z' || 'A' <= c <= 'Z' || c == '-' || '0' <= c <= '9'
  }

  lemma LowerFirst(i: nat)
    requires 0 <= i < 13
    ensures LOWER[i] as int == 'a' as int + i
  {
    assert LOWER[0] == 'a' && LOWER[1] == 'b' && LOWER[2] == 'c' && LOWER[3] == 'd' && LOWER[4] == 'e'
        && LOWER[5] == 'f' && LOWER[6] == 'g' && LOWER[7] == 'h' && LOWER[8] == 'i' && LOWER[9] == 'j'
        && LOWER[10] == 'k' && LOWER[11] == 'l' && LOWER[12] == 'm';
  }

  lemma LowerLast(i: nat)
    requires 13 <= i < 26
    ensures LOWER[i] as int == 'a' as int + i
  {
    assert LOWER[13] == 'n' && LOWER[14] == 'o' && LOWER[15] == 'p' && LOWER[16] == 'q' && LOWER[17] == 'r'
        && LOWER[18] == 's' && LOWER[19] == 't' && LOWER[20] == 'u' && LOWER[21] == 'v' && LOWER[22] == 'w'
        && LOWER[23] == 'x' && LOWER[24] == 'y' && LOWER[25] == 'z';
  }

  lemma UpperFirst(i: nat)
    requires 0 <= i < 13
    ensures UPPER[i] as int == 'A' as int + i
  {
    assert UPPER[0] == 'A' && UPPER[1] == 'B' && UPPER[2] == 'C' && UPPER[3] == 'D' && UPPER[4] == 'E'
        && UPPER[5] == 'F' && UPPER[6] == 'G' && UPPER[7] == 'H' && UPPER[8] == 'I' && UPPER[9] == 'J'
        && UPPER[10] == 'K' && UPPER[11] == 'L' && UPPER[12] == 'M';
  }

  lemma UpperLast(i: nat)
    requires 13 <= i < 26
    ensures UPPER[i] as int == 'A' as int + i
  {
    assert UPPER[13] == 'N' && UPPER[14] == 'O' && UPPER[15] == 'P' && UPPER[16] == 'Q' && UPPER[17] == 'R'
        && UPPER[18] == 'S' && UPPER[19] == 'T' && UPPER[20] == 'U' && UPPER[21] == 'V' && UPPER[22] == 'W'
        && UPPER[23] == 'X' && UPPER[24] == 'Y' && UPPER[25] == 'Z';
  }

  lemma DigitsTold(i: nat)
    requires 0 <= i < 10
    ensures DIGITS[i] as int == '0' as int + i
  {
    assert DIGITS[0] == '0' && DIGITS[1] == '1' && DIGITS[2] == '2' && DIGITS[3] == '3' && DIGITS[4] == '4'
        && DIGITS[5] == '5' && DIGITS[6] == '6' && DIGITS[7] == '7' && DIGITS[8] == '8' && DIGITS[9] == '9';
  }

  lemma LettersTold(i: nat)
    requires i < 26
    ensures LOWER[i] as int == 'a' as int + i && UPPER[i] as int == 'A' as int + i
  {
    if i < 13 {
      LowerFirst(i);
      UpperFirst(i);
    } else {
      LowerLast(i);
      UpperLast(i);
    }
  }

  lemma FourParts(a: string, b: string, c: string, d: string, i: nat)
    requires |a| == |b| == 26 && |c| == 1 && i < 53 + |d|
    ensures (a + b + c + d)[i]
         == if i < 26 then a[i] else if i < 52 then b[i - 26] else if i == 52 then c[0] else d[i - 53]
  {
  }

  lemma AlphabetAt(i: nat)
    requires i < 63
    ensures Alphabet()[i]
         == if i < 26 then LOWER[i] else if i < 52 then UPPER[i - 26] else if i == 52 then '-' else DIGITS[i - 53]
  {
    FourParts(LOWER, UPPER, "-", DIGITS, i);
  }

  lemma AlphabetLetters(i: nat)
    requires i < 26
    ensures Alphabet()[i] as int == 'a' as int + i && Alphabet()[26 + i] as int == 'A' as int + i
  {
    hide Alphabet;
    AlphabetAt(i);
    AlphabetAt(26 + i);
    LettersTold(i);
  }

  lemma AlphabetDigits(i: nat)
    requires i < 10
    ensures Alphabet()[53 + i] as int == '0' as int + i
  {
    hide Alphabet;
    AlphabetAt(53 + i);
    DigitsTold(i);
  }

  /** The alphabet has every letter, every digit and the hyphen, each in one place, and nothing else. */
  lemma AlphabetTold(i: nat)
    requires i < 63
    ensures Alphabet()[i] as int
         == if i < 26 then 'a' as int + i else if i < 52 then 'A' as int + (i - 26)
            else if i == 52 then '-' as int else '0' as int + (i - 53)
  {
    hide Alphabet;
    if i < 52 {
      AlphabetLetters(i % 26);
    } else if 52 < i {
      AlphabetDigits(i - 53);
    } else {
      AlphabetAt(i);
    }
  }

  lemma AlphabetIff(c: char)
    ensures c in Alphabet() <==> UrlFriendly(c)
  {
    hide Alphabet;
    if UrlFriendly(c) {
      var i := if 'a' <= c <= 'z' then c as int - 'a' as int else if 'A' <= c <= 'Z' then c as int - 'A' as int + 26
               else if c == '-' then 52 else c as int - '0' as int + 53;
      AlphabetTold(i);
      assert Alphabet()[i] == c;
    }
    if i :| 0 <= i < |Alphabet()| && Alphabet()[i] == c {
      AlphabetTold(i);
    }
  }

  const CODE_LENGTH: nat := 6

  type Byte = n: nat | n < 256

  /** `byte & 0x3f`. */
  function LowSix(b: Byte): nat { b % 64 }

  /** Index 63 lies past the end of the alphabet and yields `undefined`. */
  function CharOf(b: Byte): Option<char> {
    if LowSix(b) < |Alphabet()| then Some(Alphabet()[LowSix(b)]) else None
  }

  /** `join('')`, which prints `undefined` as nothing. */
  function Join(chars: seq<Option<char>>): string {
    if chars == [] then []
    else Join(chars[..|chars| - 1]) + if chars[|chars| - 1].Some? then [chars[|chars| - 1].value] else []
  }

  function CodeOf(bytes: seq<Byte>): string {
    Join(seq(|bytes|, i requires 0 <= i < |bytes| => CharOf(bytes[i])))
  }

  method Generate(bytes: seq<Byte>) returns (code: string)
    requires |bytes| == CODE_LENGTH
    ensures code == CodeOf(bytes)
  {
    hide Alphabet, Join;
    var result := new Option<char>[CODE_LENGTH];
    for i := 0 to CODE_LENGTH
      invariant forall j :: 0 <= j < i ==> result[j] == CharOf(bytes[j])
    {
      var index := LowSix(bytes[i]);
      result[i] := if index < |Alphabet()| then Some(Alphabet()[index]) else None;
    }
    assert result[..] == seq(|bytes|, i requires 0 <= i < |bytes| => CharOf(bytes[i]));
    code := Join(result[..]);
  }

  function Blanks(bytes: seq<Byte>): nat {
    if bytes == [] then 0
    else Blanks(bytes[..|bytes| - 1]) + if LowSix(bytes[|bytes| - 1]) == 63 then 1 else 0
  }

  ghost predicate OverAlphabet(code: string) {
    forall i :: 0 <= i < |code| ==> code[i] in Alphabet()
  }

  lemma CodeOfNext(bytes: seq<Byte>, b: Byte)
    ensures CodeOf(bytes + [b]) == CodeOf(bytes) + if CharOf(b).Some? then [CharOf(b).value] else []
  {
    hide Alphabet, CharOf;
    var all := seq(|bytes + [b]|, i requires 0 <= i < |bytes + [b]| => CharOf((bytes + [b])[i]));
    assert all[..|bytes|] == seq(|bytes|, i requires 0 <= i < |bytes| => CharOf(bytes[i]));
  }

  /** A code is over the alphabet and as long as the bytes, less one for every low six bits of 63. */
  lemma {:induction false} CodeLength(bytes: seq<Byte>)
    ensures OverAlphabet(CodeOf(bytes)) && |CodeOf(bytes)| + Blanks(bytes) == |bytes|
  {
    hide Alphabet;
    if bytes != [] {
      var r, b := bytes[..|bytes| - 1], bytes[|bytes| - 1];
      CodeLength(r);
      assert r + [b] == bytes;
      CodeOfNext(r, b);
    }
  }

  lemma {:induction false} BytesFor(code: string) returns (bytes: seq<Byte>)
    requires OverAlphabet(code)
    ensures |bytes| == |code| && CodeOf(bytes) == code
  {
    hide Alphabet;
    if code == [] {
      bytes := [];
    } else {
      var n := |code| - 1;
      var r := BytesFor(code[..n]);
      assert code[n] in Alphabet();
      var index :| 0 <= index < |Alphabet()| && Alphabet()[index] == code[n];
      assert LowSix(index) == index;
      CodeOfNext(r, index);
      bytes := r + [index];
    }
  }

  lemma {:induction false} Pad(bytes: seq<Byte>, n: nat) returns (padded: seq<Byte>)
    ensures |padded| == |bytes| + n && CodeOf(padded) == CodeOf(bytes)
  {
    hide Alphabet;
    padded := bytes;
    if n != 0 {
      padded := Pad(bytes, n - 1);
      CodeOfNext(padded, 63);
      padded := padded + [63];
    }
  }

  /**
   Exactly the strings over the alphabet of at most six characters can be generated: shorter
   codes and even the empty one are among them, longer custom codes never are.
   */
  lemma GeneratedIff(code: string)
    ensures (exists bytes: seq<Byte> :: |bytes| == 6 && CodeOf(bytes) == code)
       <==> OverAlphabet(code) && |code| <= 6
  {
    hide Alphabet;
    if bytes: seq<Byte> :| |bytes| == 6 && CodeOf(bytes) == code {
      CodeLength(bytes);
    }
    if OverAlphabet(code) && |code| <= CODE_LENGTH {
      var bytes := BytesFor(code);
      var padded := Pad(bytes, CODE_LENGTH - |bytes|);
    }
  }

  /** The only generated code that a cached list is kept under is `all`, and it can be generated. */
  lemma GeneratedCodeOkIff(bytes: seq<Byte>)
    ensures U.CodeOk(CodeOf(bytes)) <==> CodeOf(bytes) != U.ALL
    ensures exists some: seq<Byte> :: |some| == CODE_LENGTH && CodeOf(some) == U.ALL
  {
    hide Alphabet;
    CodeLength(bytes);
    GeneratedIff(U.ALL);
    NoColonNoUserKey(CodeOf(bytes));
  }

  lemma NoColonNoUserKey(code: string)
    requires ':' !in code
    ensures !U.IsUserKey(code)
  {
    assert U.USER_PREFIX[4] == ':';
    assert |code| > 4 ==> code[4] != ':';
  }

  /** The custom codes that `update` takes, of 8 to 16 characters without a colon, are no list's keys. */
  lemma CustomCodeOk(code: string)
    requires 8 <= |code| <= 16 && ':' !in code
    ensures U.CodeOk(code)
  {
    NoColonNoUserKey(code);
  }

  // ---- a batch of tasks that share one set ----

  /** What each task has returned, if it has, and the set they share. */
  datatype Batch = Batch(results: seq<Option<string>>, used: set<string>)

  /** Task `i` receives its next bytes: it checks the set and adds to it without a pause. */
  function Receive(b: Batch, i: nat, bytes: seq<Byte>): Batch {
    var code := CodeOf(bytes);
    if i < |b.results| && b.results[i].None? && code !in b.used then
      Batch(b.results[i := Some(code)], b.used + {code})
    else b
  }

  function Start(size: nat): Batch {
    Batch(seq(size, _ => None), {})
  }

  function Exec(size: nat, steps: seq<(nat, seq<Byte>)>): Batch {
    if steps == [] then Start(size)
    else Receive(Exec(size, steps[..|steps| - 1]), steps[|steps| - 1].0, steps[|steps| - 1].1)
  }

  ghost predicate Consistent(b: Batch) {
    && (forall i :: 0 <= i < |b.results| && b.results[i].Some? ==> b.results[i].value in b.used)
    && (forall i, j :: 0 <= i < j < |b.results| && b.results[i].Some? ==> b.results[i] != b.results[j])
  }

  ghost predicate SixBytes(steps: seq<(nat, seq<Byte>)>) {
    forall i :: 0 <= i < |steps| ==> |steps[i].1| == CODE_LENGTH
  }

  ghost predicate Short(b: Batch) {
    forall i :: 0 <= i < |b.results| && b.results[i].Some? ==>
      OverAlphabet(b.results[i].value) && |b.results[i].value| <= 6
  }

  lemma ReceiveConsistent(b: Batch, i: nat, bytes: seq<Byte>)
    requires Consistent(b) && Short(b) && |bytes| == CODE_LENGTH
    ensures Consistent(Receive(b, i, bytes)) && Short(Receive(b, i, bytes))
    ensures |Receive(b, i, bytes).results| == |b.results|
  {
    CodeLength(bytes);
    hide CodeOf, OverAlphabet;
  }

  /**
   However the tasks of a batch take turns, the codes they have returned are pairwise
   distinct, over the alphabet, and never as long as a custom code, which has 8 to 16 characters.
   */
  lemma {:induction false} BatchDistinct(size: nat, steps: seq<(nat, seq<Byte>)>)
    requires SixBytes(steps)
    ensures var b := Exec(size, steps); |b.results| == size && Consistent(b) && Short(b)
    ensures forall custom: string, i :: 8 <= |custom| <= 16 && 0 <= i < size ==>
              Exec(size, steps).results[i] != Some(custom)
  {
    hide Receive;
    if steps != [] {
      BatchDistinct(size, steps[..|steps| - 1]);
      assert |steps[|steps| - 1].1| == CODE_LENGTH;
      ReceiveConsistent(Exec(size, steps[..|steps| - 1]), steps[|steps| - 1].0, steps[|steps| - 1].1);
    }
  }

  /** `generateBatch`: the shared set and the results, changed in place as its tasks take turns. */
  class BatchGenerator {
    var generatedCodes: set<string>
    var results: seq<Option<string>>

    constructor (size: nat)
      ensures Batch(results, generatedCodes) == Start(size)
    {
      generatedCodes, results := {}, seq(size, _ => None);
    }

    /** One turn of a task that is still looking for a code; it goes round again if the code is taken. */
    method TakeTurn(task: nat, bytes: seq<Byte>) returns (again: bool)
      requires task < |results| && results[task].None? && |bytes| == CODE_LENGTH
      modifies this
      ensures Batch(results, generatedCodes) == Receive(old(Batch(results, generatedCodes)), task, bytes)
      ensures again <==> results[task].None?
    {
      var code := Generate(bytes);
      if code in generatedCodes {
        return true;
      }
      generatedCodes := generatedCodes + {code};
      results := results[task := Some(code)];
      return false;
    }
  }
}
