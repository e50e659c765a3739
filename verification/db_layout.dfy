/**
 The layout of the index file, spelled out (db/db.c:306-316, 567-612): which chain a key is
 on, and what the bytes of a record are.
 */
module DbLayout {
  import opened DbFormat
  import opened DbLists

  /** Each character times its place, counted from 1. */
  function Weighted(key: string, n: nat): int
    requires n <= |key|
  {
    if n == 0 then 0 else Weighted(key, n - 1) + n * SignedChar(key[n - 1])
  }

  lemma AddWraps(a: int, b: int)
    ensures (a % WORD + b) % WORD == (a + b) % WORD
  {
  }

  /** One turn of the loop. */
  lemma HashTurn(key: string, i: nat, a: int)
    requires i < |key|
    ensures HashFrom(key[i..], i + 1, a % WORD) == HashFrom(key[i + 1..], i + 2, (a + (i + 1) * SignedChar(key[i])) % WORD)
  {
    hide SignedChar;
    assert key[i..][0] == key[i] && key[i..][1..] == key[i + 1..];
    var b := SignedChar(key[i]) * (i + 1);
    assert (i + 1) * SignedChar(key[i]) == b;
    AddWraps(a, b);
  }

  lemma {:induction false} SumSoFar(key: string, i: nat)
    requires i <= |key|
    ensures HashFrom(key, 1, 0) == HashFrom(key[i..], i + 1, Weighted(key, i) % WORD)
  {
    hide HashFrom;
    if i == 0 {
      assert key[0..] == key;
    } else {
      SumSoFar(key, i - 1);
      HashTurn(key, i - 1, Weighted(key, i - 1));
    }
  }

  /** The chain of a key: its characters, as signed bytes, weighted with their places, in 64 bits. */
  lemma HashIsSum(key: string, nhash: nat)
    requires nhash > 0
    ensures Hash(key, nhash) == Weighted(key, |key|) % WORD % nhash
    ensures forall c :: -128 <= SignedChar(c) <= 127 && (c as int - SignedChar(c)) % 256 == 0
  {
    SumSoFar(key, |key|);
    assert key[|key|..] == [];
  }

  /** Of two characters the second counts twice. */
  lemma {:induction false} HashOfTwo(key: string, nhash: nat)
    requires |key| == 2 && nhash > 0
    ensures Hash(key, nhash) == (SignedChar(key[0]) + 2 * SignedChar(key[1])) % WORD % nhash
  {
    hide Hash, HashFrom, SignedChar;
    HashIsSum(key, nhash);
    assert Weighted(key, 1) == SignedChar(key[0]);
    assert Weighted(key, 2) == SignedChar(key[0]) + 2 * SignedChar(key[1]);
  }

  lemma DigitsOfTwelve()
    ensures Digits(12) == "12" && Digits(2) == "2" && Digits(7) == "7" && Digits(0) == "0"
  {
    assert Digits(1) == "1";
  }

  lemma {:induction false} FieldIs(width: nat, n: nat, d: string, pad: string)
    requires Digits(n) == d && pad == Blanks(|pad|) && |pad| + |d| == width
    ensures Field(width, n) == pad + d
  {
    hide Digits;
  }

  /** The record of the key "k" at the end of its chain, with one byte and a newline of data at 12. */
  lemma {:induction false} RecordOfOne()
    ensures Rec(0, "k", 12, 2).Text() == "      0" + "   7" + "k:12:2\n"
  {
    hide Digits, Field;
    DigitsOfTwelve();
    FieldIs(7, 0, "0", "      ");
    FieldIs(4, 7, "7", "   ");
    assert Entry("k", 12, 2) == "k:12:2\n";
  }
}
