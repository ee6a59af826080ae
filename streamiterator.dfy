/** The stream and iterator examples: rock-paper-scissors hands scored
    pairwise over two streams, and an iterator over integers read in chunks
    through a shared cursor (a magic number decoded from bytes, then two
    version numbers). */
module StreamIterator {
  import opened Basics
  import opened FuncCollections

  // ---------------------------------------------------------------- Hand

  /** The enum Hand, in declaration order. */
  datatype Hand = Rock | Paper | Scissors

  /** hand.play(anotherHand): 0 for the same hand, otherwise 1 when this
      hand wins and -1 when it loses. The switch covers every hand, so the
      exception after it is never reached: the match below is exhaustive. */
  function Play(hand: Hand, anotherHand: Hand): (r: int)
    ensures -1 <= r <= 1
    ensures r == 0 <==> hand == anotherHand
  {
    if hand == anotherHand then 0
    else
      match hand
      case Rock => if anotherHand == Paper then -1 else 1
      case Paper => if anotherHand == Scissors then -1 else 1
      case Scissors => if anotherHand == Rock then -1 else 1
  }

  /** The position of a hand in the enum (its ordinal). */
  function Ordinal(h: Hand): (i: nat)
    ensures i < 3
  {
    match h
    case Rock => 0
    case Paper => 1
    case Scissors => 2
  }

  /** Swapping the hands negates the outcome. */
  lemma PlayAntisymmetric(a: Hand, b: Hand)
    ensures Play(a, b) == -Play(b, a)
  {
  }

  /** An independent statement of the rule: in the cycle Rock, Paper,
      Scissors each hand beats the one declared just before it. */
  lemma PlayIsCyclic(a: Hand, b: Hand)
    ensures Play(a, b) == if a == b then 0 else if (Ordinal(a) - Ordinal(b)) % 3 == 1 then 1 else -1
  {
  }

  /** Every hand beats exactly one hand and loses to exactly one. */
  lemma EachHandBeatsOne(a: Hand)
    ensures exists b :: Play(a, b) == 1
    ensures exists b :: Play(a, b) == -1
    ensures forall b, c :: Play(a, b) == 1 && Play(a, c) == 1 ==> b == c
    ensures forall b, c :: Play(a, b) == -1 && Play(a, c) == -1 ==> b == c
  {
    match a
    case Rock => assert Play(a, Scissors) == 1 && Play(a, Paper) == -1;
    case Paper => assert Play(a, Rock) == 1 && Play(a, Scissors) == -1;
    case Scissors => assert Play(a, Paper) == 1 && Play(a, Rock) == -1;
  }

  /** player1.zipWith(player2, Hand::play).sum(): player 1's total over the
      rounds both players played. Each round is worth between -1 and 1, so
      the score lies between minus and plus the number of rounds. */
  function Score(player1: seq<Hand>, player2: seq<Hand>): (r: int)
    ensures var rounds := if |player1| < |player2| then |player1| else |player2|;
            -rounds <= r <= rounds
  {
    SumBounds(ZipWith(player1, player2, Play), -1, 1);
    Sum(ZipWith(player1, player2, Play))
  }

  /** Player 2's score is the negation of player 1's. */
  lemma {:induction false} ScoreAntisymmetric(player1: seq<Hand>, player2: seq<Hand>)
    ensures Score(player1, player2) == -Score(player2, player1)
  {
    if player1 != [] && player2 != [] {
      var z1 := ZipWith(player1, player2, Play);
      var z2 := ZipWith(player2, player1, Play);
      assert z1[1..] == ZipWith(player1[1..], player2[1..], Play);
      assert z2[1..] == ZipWith(player2[1..], player1[1..], Play);
      PlayAntisymmetric(player1[0], player2[0]);
      ScoreAntisymmetric(player1[1..], player2[1..]);
    }
  }

  /** testCombine: paper beats rock, paper ties paper, rock beats scissors. */
  lemma CombineExample()
    ensures Score([Paper, Paper, Rock], [Rock, Paper, Scissors]) == 2
    ensures "Player1 score: " + IntToString(Score([Paper, Paper, Rock], [Rock, Paper, Scissors])) == "Player1 score: 2"
  {
    var z := ZipWith([Paper, Paper, Rock], [Rock, Paper, Scissors], Play);
    assert z == [1, 0, 1];
    assert Sum(z) == z[0] + Sum(z[1..]);
    assert z[1..] == [0, 1];
    assert Sum([0, 1]) == 0 + Sum([1]);
    assert [0, 1][1..] == [1];
    assert Sum([1]) == 1 + Sum([]);
    assert [1][1..] == [];
    assert IntToString(2) == "2";
  }

  // -------------------------------------------------------------- bytes

  /** Integer::byteValue: the low 8 bits read as a signed byte. */
  function ByteValue(x: int): (b: int)
    ensures -128 <= b < 128
    ensures (x - b) % 256 == 0
  {
    var low := x % 256;
    if low < 128 then low else low - 256
  }

  /** A value already in the byte range is kept as it is. */
  lemma ByteValueInRange(x: int)
    requires -128 <= x < 128
    ensures ByteValue(x) == x
  {
  }

  /** new String(bytes) for single-byte characters: a byte in 0..127 is
      the character with that code; a negative byte is not a character on
      its own and decodes to the replacement character U+FFFD. */
  function DecodeAscii(bytes: seq<int>): (s: string)
    requires forall i :: 0 <= i < |bytes| ==> -128 <= bytes[i] < 128
    ensures |s| == |bytes|
    ensures forall i :: 0 <= i < |bytes| && 0 <= bytes[i] ==> s[i] as int == bytes[i]
    ensures forall i :: 0 <= i < |bytes| && bytes[i] < 0 ==> s[i] == '�'
  {
    if bytes == [] then []
    else [if bytes[0] >= 0 then bytes[0] as char else '�'] + DecodeAscii(bytes[1..])
  }

  /** The codes of a string of ASCII characters decode back to the string. */
  lemma DecodeAsciiCodes(s: string)
    requires forall i :: 0 <= i < |s| ==> s[i] as int < 128
    ensures DecodeAscii(Map(s, (c: char) => c as int)) == s
  {
  }

  /** The chunk reader of testVariantRead: bytes → their byte values → text.
      Each element becomes one character: the one whose code is its byte
      value when that is not negative, U+FFFD otherwise. */
  function BytesToString(chunk: seq<int>): (s: string)
    ensures |s| == |chunk|
    ensures forall i :: 0 <= i < |chunk| && 0 <= ByteValue(chunk[i]) ==> s[i] as int == ByteValue(chunk[i])
    ensures forall i :: 0 <= i < |chunk| && ByteValue(chunk[i]) < 0 ==> s[i] == '�'
  {
    DecodeAscii(Map(chunk, ByteValue))
  }

  // ----------------------------------------------------------- iterator

  /** An IteratorPlus over a fixed list of integers: every read takes
      elements from the current position on and moves the position past
      them, so successive reads see successive parts of the list. */
  class PullIterator {
    const elements: seq<int>
    var position: nat

    ghost predicate Valid()
      reads this
    {
      position <= |elements|
    }

    /** The elements not yet read. */
    function Remaining(): seq<int>
      reads this
      requires Valid()
    {
      elements[position..]
    }

    constructor (xs: seq<int>)
      ensures Valid() && elements == xs && position == 0
    {
      elements := xs;
      position := 0;
    }

    /** pullNext(n): the next n elements, read one at a time. When fewer
        than n remain, what remains is consumed and nothing is returned. */
    method PullNext(n: nat) returns (r: Option<seq<int>>)
      requires Valid()
      modifies this
      ensures Valid()
      ensures n <= |old(Remaining())| ==> r == Some(old(Remaining())[..n]) && Remaining() == old(Remaining())[n..]
      ensures |old(Remaining())| < n ==> r == None && Remaining() == []
    {
      var taken: seq<int> := [];
      while |taken| < n && position < |elements|
        invariant old(position) <= position <= |elements|
        invariant taken == elements[old(position)..position]
        invariant |taken| <= n
        decreases n - |taken|
      {
        taken := taken + [elements[position]];
        position := position + 1;
      }
      assert old(Remaining()) == elements[old(position)..];
      if |taken| == n {
        assert old(Remaining())[..n] == taken;
        assert old(Remaining())[n..] == elements[position..];
        r := Some(taken);
      } else {
        r := None;
      }
    }

    /** mapNext(n, f): pullNext(n) with f applied to the chunk. */
    method MapNext<U>(n: nat, f: seq<int> -> U) returns (r: Option<U>)
      requires Valid()
      modifies this
      ensures Valid()
      ensures n <= |old(Remaining())| ==> r == Some(f(old(Remaining())[..n])) && Remaining() == old(Remaining())[n..]
      ensures |old(Remaining())| < n ==> r == None && Remaining() == []
    {
      ghost var before := Remaining();
      var chunk := PullNext(n);
      assert n <= |before| ==> chunk == Some(before[..n]);
      r := MapOption(chunk, f);
    }
  }

  /** testVariantRead: a four byte magic number, then a major and a minor
      version of two elements each, read from one iterator. */
  method VariantReadExample() returns (magic: Option<string>, major: Option<seq<int>>, minor: Option<seq<int>>)
    ensures magic == Some("Nawa")
    ensures major == Some([0, 2])
    ensures minor == Some([0, 1])
  {
    var all := [78, 97, 119, 97, 0, 2, 0, 1];
    var bytes := new PullIterator(all);
    assert bytes.Remaining() == all;
    magic := bytes.MapNext(4, BytesToString);
    assert all[..4] == [78, 97, 119, 97] && all[4..] == [0, 2, 0, 1];
    major := bytes.PullNext(2);
    assert [0, 2, 0, 1][..2] == [0, 2] && [0, 2, 0, 1][2..] == [0, 1];
    minor := bytes.PullNext(2);
    assert [0, 1][..2] == [0, 1];
    var nawa := BytesToString([78, 97, 119, 97]);
    assert nawa[0] == 'N' && nawa[1] == 'a' && nawa[2] == 'w' && nawa[3] == 'a';
    assert nawa == "Nawa";
  }

  /** The versions' list renderings. */
  lemma VersionRenderingExample()
    ensures ListToString([0, 2], IntToString) == "[0, 2]"
    ensures ListToString([0, 1], IntToString) == "[0, 1]"
  {
    assert IntToString(0) == "0" && IntToString(1) == "1" && IntToString(2) == "2";
    assert [0, 2][1..] == [2] && [0, 1][1..] == [1];
    assert "[" + ("0" + ", " + "2") + "]" == "[0, 2]";
    assert "[" + ("0" + ", " + "1") + "]" == "[0, 1]";
  }
}
