/** The printed form of a generation and its parser (snapshot.go, node.go). */
module Generations {
  import opened Common
  import opened Snapshots

  function DigitChar(digit: nat): char
    requires digit < 10
  {
    '0' + digit as char
  }

  /** `%d`. */
  function Decimal(n: nat): string {
    if n < 10 then [DigitChar(n)] else Decimal(n / 10) + [DigitChar(n % 10)]
  }

  predicate AllDigits(text: string) {
    forall i :: 0 <= i < |text| ==> '0' <= text[i] <= '9'
  }

  function DecimalValue(text: string): nat
    requires AllDigits(text)
  {
    if text == "" then 0
    else 10 * DecimalValue(text[..|text| - 1]) + (text[|text| - 1] as int - '0' as int)
  }

  /** `strconv.ParseUint(text, 10, 64)`. */
  function ParseUint(text: string): Option<U64> {
    if text == "" || !AllDigits(text) then None
    else if DecimalValue(text) < TWO_64 then Some(DecimalValue(text)) else None
  }

  lemma {:induction false} DecimalRoundTrip(n: nat)
    ensures Decimal(n) != "" && AllDigits(Decimal(n)) && DecimalValue(Decimal(n)) == n
  {
    if n < 10 {
      assert DecimalValue([]) == 0;
    } else {
      DecimalRoundTrip(n / 10);
      assert Decimal(n)[..|Decimal(n)| - 1] == Decimal(n / 10);
    }
  }

  function FirstSlash(text: string): (position: nat)
    ensures position <= |text|
    ensures '/' !in text[..position]
    ensures position < |text| ==> text[position] == '/'
  {
    if text == "" || text[0] == '/' then 0 else 1 + FirstSlash(text[1..])
  }

  /** `strings.SplitN(text, "/", n)` for positive `n`. */
  function SplitN(text: string, n: nat): seq<string> {
    var at := FirstSlash(text);
    if n <= 1 || at == |text| then [text] else [text[..at]] + SplitN(text[at + 1..], n - 1)
  }

  /** `Generation.String`. */
  function Print(generation: Generation): string {
    generation.clusterId + "/" + Decimal(generation.leaderEpoch) + "/" + Decimal(generation.sequence)
    + "/" + generation.manifestHash
  }

  /** `Node.ParseGeneration` on a node configured for `clusterId`. */
  function ParseGeneration(clusterId: string, value: string): Option<Generation> {
    var parts := SplitN(value, 4);
    if |parts| != 4 then None
    else
      var epoch, sequence := ParseUint(parts[1]), ParseUint(parts[2]);
      if epoch.None? || sequence.None? then None
      else if parts[0] != clusterId || !(HASH_PREFIX_SHA256 <= parts[3]) then None
      else Some(Generation(parts[0], epoch.value, sequence.value, parts[3]))
  }

  lemma SplitAtSlash(head: string, rest: string, n: nat)
    requires '/' !in head && n >= 2
    ensures SplitN(head + "/" + rest, n) == [head] + SplitN(rest, n - 1)
  {
    var text := head + "/" + rest;
    var at := FirstSlash(text);
    assert text[|head|] == '/';
    assert text[..at] == head && text[at + 1..] == rest;
  }

  lemma FirstPartHasNoSlash(text: string, n: nat)
    requires n >= 2
    ensures SplitN(text, n) != [] && '/' !in SplitN(text, n)[0]
  {
  }

  lemma JoinIsAssociative(a: string, b: string, c: string, d: string)
    ensures a + "/" + b + "/" + c + "/" + d == a + "/" + (b + "/" + (c + "/" + d))
  {
  }

  lemma SplitTwo(a: string, b: string)
    requires '/' !in a
    ensures SplitN(a + "/" + b, 2) == [a, b]
  {
    SplitAtSlash(a, b, 2);
  }

  lemma SplitThree(a: string, b: string, c: string)
    requires '/' !in a && '/' !in b
    ensures SplitN(a + "/" + (b + "/" + c), 3) == [a, b, c]
  {
    SplitAtSlash(a, b + "/" + c, 3);
    SplitTwo(b, c);
  }

  lemma SplitPrinted(generation: Generation)
    requires '/' !in generation.clusterId
    ensures SplitN(Print(generation), 4)
            == [generation.clusterId, Decimal(generation.leaderEpoch), Decimal(generation.sequence),
                generation.manifestHash]
  {
    var epoch, sequence, hash := Decimal(generation.leaderEpoch), Decimal(generation.sequence), generation.manifestHash;
    DecimalRoundTrip(generation.leaderEpoch);
    DecimalRoundTrip(generation.sequence);
    JoinIsAssociative(generation.clusterId, epoch, sequence, hash);
    SplitAtSlash(generation.clusterId, epoch + "/" + (sequence + "/" + hash), 4);
    SplitThree(epoch, sequence, hash);
  }

  /** Printing then parsing gives the generation back exactly when it names this node's cluster, the
      cluster id has no slash and the hash has its prefix. A cluster id with a slash, which
      configuration accepts, makes every printed generation of the cluster unreadable. */
  lemma PrintParseRoundTrip(clusterId: string, generation: Generation)
    ensures ParseGeneration(clusterId, Print(generation)) == Some(generation) <==>
              && generation.clusterId == clusterId
              && '/' !in clusterId
              && HASH_PREFIX_SHA256 <= generation.manifestHash
  {
    if '/' in generation.clusterId {
      FirstPartHasNoSlash(Print(generation), 4);
    } else {
      SplitPrinted(generation);
      DecimalRoundTrip(generation.leaderEpoch);
      DecimalRoundTrip(generation.sequence);
    }
  }

  /** Hence no two such generations print alike. */
  lemma PrintIsInjective(clusterId: string, a: Generation, b: Generation)
    requires a.clusterId == clusterId == b.clusterId && '/' !in clusterId
    requires HASH_PREFIX_SHA256 <= a.manifestHash && HASH_PREFIX_SHA256 <= b.manifestHash
    requires Print(a) == Print(b)
    ensures a == b
  {
    PrintParseRoundTrip(clusterId, a);
    PrintParseRoundTrip(clusterId, b);
  }

  lemma SplitJoins(text: string, n: nat)
    requires n >= 2 && |SplitN(text, n)| >= 2
    ensures '/' !in SplitN(text, n)[0]
    ensures exists rest :: text == SplitN(text, n)[0] + "/" + rest && SplitN(text, n)[1..] == SplitN(rest, n - 1)
  {
    var at := FirstSlash(text);
    var rest := text[at + 1..];
    assert text == text[..at] + "/" + rest;
    assert SplitN(text, n)[1..] == SplitN(rest, n - 1);
  }

  /** The text is the four parts of a generation joined by slashes, the last of which may hold slashes. */
  predicate IsWritten(text: string, clusterId: string, epoch: string, sequence: string, hash: string) {
    && text == clusterId + "/" + (epoch + "/" + (sequence + "/" + hash))
    && '/' !in clusterId
  }

  lemma SplitFour(text: string)
    requires |SplitN(text, 4)| == 4
    ensures var p := SplitN(text, 4); IsWritten(text, p[0], p[1], p[2], p[3])
  {
    SplitJoins(text, 4);
    var a :| text == SplitN(text, 4)[0] + "/" + a && SplitN(text, 4)[1..] == SplitN(a, 3);
    SplitJoins(a, 3);
    var b :| a == SplitN(a, 3)[0] + "/" + b && SplitN(a, 3)[1..] == SplitN(b, 2);
    SplitJoins(b, 2);
    var c :| b == SplitN(b, 2)[0] + "/" + c && SplitN(b, 2)[1..] == SplitN(c, 1);
    assert SplitN(c, 1) == [c];
    assert SplitN(text, 4)[2] == SplitN(a, 3)[1] && SplitN(text, 4)[3] == SplitN(a, 3)[2];
    hide SplitN;
  }

  /** The text is a decimal number, leading zeros allowed. */
  predicate IsNumber(text: string, n: int) {
    text != "" && AllDigits(text) && DecimalValue(text) == n
  }

  lemma NumbersHaveNoSlash(text: string)
    requires ParseUint(text).Some?
    ensures '/' !in text
  {
  }

  /** What the parser accepts: this node's cluster without a slash, two decimal numbers below 2^64, leading
      zeros allowed, and a hash with its prefix. */
  lemma ParseIsExact(clusterId: string, text: string, generation: Generation)
    ensures ParseGeneration(clusterId, text) == Some(generation) <==>
            && generation.clusterId == clusterId && HASH_PREFIX_SHA256 <= generation.manifestHash
            && exists epoch, sequence :: IsWritten(text, clusterId, epoch, sequence, generation.manifestHash)
                 && IsNumber(epoch, generation.leaderEpoch) && IsNumber(sequence, generation.sequence)
  {
    forall digits, n: U64 ensures ParseUint(digits) == Some(n) <==> IsNumber(digits, n) {
    }
    hide ParseUint, IsNumber;
    if ParseGeneration(clusterId, text) == Some(generation) {
      SplitFour(text);
      var p := SplitN(text, 4);
      assert IsWritten(text, clusterId, p[1], p[2], generation.manifestHash);
    }
    if epoch, sequence :| IsWritten(text, clusterId, epoch, sequence, generation.manifestHash)
                          && IsNumber(epoch, generation.leaderEpoch) && IsNumber(sequence, generation.sequence) {
      NumbersHaveNoSlash(epoch);
      NumbersHaveNoSlash(sequence);
      SplitAtSlash(clusterId, epoch + "/" + (sequence + "/" + generation.manifestHash), 4);
      SplitThree(epoch, sequence, generation.manifestHash);
    }
  }
}
