/** The short-code generator: `Length` symbols drawn with repetition from a 63-symbol
    alphabet, from a random source seeded with the current Unix second.
    The clock reading and the seeded source are parameters: `now` is the value of
    `time.Now().Unix()`, and `rng(seed, k)` is the k-th value `Intn(63)` yields from a
    source seeded with `seed`. */
module Generator {
  import opened Domain

  const Length: nat := 10
  const LowercaseLetters: string := "abcdefghijklmnopqrstuvwxyz"
  const UppercaseLetters: string := "ABCDEFGHIJKLMNOPQRSTUVWXYZ"
  const Numbers: string := "0123456789"
  const Underscore: string := "_"

  /** The `chars` the generator indexes into. */
  const Chars: string := LowercaseLetters + UppercaseLetters + Numbers + Underscore

  /** A value `Intn(len(chars))` can return. */
  type Draw = i: int | 0 <= i < 63

  /** A seeded random source: the sequence of draws depends on the seed alone. */
  type Rng = (int64, nat) -> Draw

  /** The symbols a code may contain. */
  predicate IsCodeChar(c: char) {
    'a' <= c <= 'z' || 'A' <= c <= 'Z' || '0' <= c <= '9' || c == '_'
  }

  /** The code a source seeded with `seed` produces. */
  function CodeOf(seed: int64, rng: Rng): string {
    seq(Length, k requires 0 <= k => Chars[rng(seed, k)])
  }

  method GenerateShortLink(now: int64, rng: Rng) returns (code: string, unix: int64)
    ensures unix == now
    ensures code == CodeOf(unix, rng)
    ensures |code| == Length && forall c :: c in code ==> IsCodeChar(c)
  {
    unix := now;
    var chars := Chars;
    var builder: string := "";
    for i := 0 to Length
      invariant |builder| == i
      invariant forall k :: 0 <= k < i ==> builder[k] == chars[rng(unix, k)]
    {
      builder := builder + [chars[rng(unix, i)]];
    }
    code := builder;
    CodeOfShape(unix, rng);
  }

  /** Two calls that read the same Unix second return the same code and timestamp. */
  method GenerateTwice(now: int64, rng: Rng) returns (first: string, second: string)
    ensures first == second
  {
    var t1, t2;
    first, t1 := GenerateShortLink(now, rng);
    second, t2 := GenerateShortLink(now, rng);
  }

  // ---------------------------------------------------------------------------
  // The alphabet

  /** The symbol at position `i` of the alphabet, by arithmetic on character codes. */
  function SymbolAt(i: nat): char
    requires i < 63
  {
    if i < 26 then ('a' as int + i) as char
    else if i < 52 then ('A' as int + (i - 26)) as char
    else if i < 62 then ('0' as int + (i - 52)) as char
    else '_'
  }

  lemma CharsAt(i: nat)
    requires i < 63
    ensures |Chars| == 63 && Chars[i] == SymbolAt(i)
  {
  }

  /** The alphabet has 63 pairwise distinct symbols, and they are exactly the code symbols. */
  lemma AlphabetIsCodeChars()
    ensures |Chars| == 63
    ensures forall i, j :: 0 <= i < j < |Chars| ==> Chars[i] != Chars[j]
    ensures forall c :: c in Chars <==> IsCodeChar(c)
  {
    forall i, j | 0 <= i < j < |Chars| ensures Chars[i] != Chars[j] {
      CharsAt(i);
      CharsAt(j);
    }
    forall c ensures c in Chars <==> IsCodeChar(c) {
      if c in Chars {
        var i :| 0 <= i < |Chars| && Chars[i] == c;
        CharsAt(i);
      }
      if IsCodeChar(c) {
        var i: nat :=
          if 'a' <= c <= 'z' then c as int - 'a' as int
          else if 'A' <= c <= 'Z' then 26 + (c as int - 'A' as int)
          else if '0' <= c <= '9' then 52 + (c as int - '0' as int)
          else 62;
        CharsAt(i);
        assert Chars[i] == c;
      }
    }
  }

  /** Every code is `Length` symbols of the alphabet. */
  lemma CodeOfShape(seed: int64, rng: Rng)
    ensures |CodeOf(seed, rng)| == Length
    ensures forall c :: c in CodeOf(seed, rng) ==> IsCodeChar(c)
    ensures Utf8Len(CodeOf(seed, rng)) == Length
  {
    var code := CodeOf(seed, rng);
    forall c | c in code ensures IsCodeChar(c) && c as int < 0x80 {
      var k :| 0 <= k < |code| && code[k] == c;
      CharsAt(rng(seed, k));
    }
  }
}
