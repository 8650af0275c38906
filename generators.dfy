/**
 * lib/generators.ts: random passwords and unique five-digit public IDs.
 * The randomness is an input: `crypto.randomBytes` is a sequence of bytes and
 * `Math.random()` is a stream `draw` of reals in [0, 1), read from a cursor.
 */
module Generators {
  import opened Wrappers
  import Text

  /** A value `Math.random()` can return. */
  type Unit = x: real | 0.0 <= x < 1.0

  const Charset: string := "abcdefghijklmnopqrstuvwxyzABCDEFGHIJKLMNOPQRSTUVWXYZ0123456789!@#$%^&*"

  lemma CharsetSize()
    ensures |Charset| == 70
  {
  }

  /** The password character that byte `b` selects: `charset[b % charset.length]`. */
  function PasswordChar(b: bv8): (c: char)
    ensures c in Charset
  {
    Charset[b as int % |Charset|]
  }

  /** The password the bytes spell, one character per byte. */
  function PasswordOf(bytes: seq<bv8>): (r: string)
    ensures |r| == |bytes|
    ensures forall i :: 0 <= i < |r| ==> r[i] == PasswordChar(bytes[i])
  {
    seq(|bytes|, i requires 0 <= i < |bytes| => PasswordChar(bytes[i]))
  }

  /** `generatePassword(length)` given the `length` random bytes it draws. */
  method GeneratePassword(length: nat, randomBytes: seq<bv8>) returns (password: string)
    requires |randomBytes| == length
    ensures |password| == length
    ensures password == PasswordOf(randomBytes)
    ensures forall i :: 0 <= i < |password| ==> password[i] in Charset
  {
    password := "";
    for i := 0 to length
      invariant |password| == i
      invariant forall j :: 0 <= j < i ==> password[j] == PasswordChar(randomBytes[j])
    {
      password := password + [Charset[randomBytes[i] as int % |Charset|]];
    }
  }

  const MinPublicId: nat := 10000
  const MaxPublicId: nat := 99999
  const MaxAttempts: nat := 100

  /** `Math.floor(Math.random() * (max - min + 1)) + min`. */
  function Candidate(x: Unit): (n: nat)
    ensures MinPublicId <= n <= MaxPublicId
  {
    // max - min + 1 == 90000
    var y := x * 90000.0;
    assert y.Floor <= 89999;
    y.Floor + 10000
  }

  /** The decimal text of a candidate. */
  function CandidateText(x: Unit): string
  {
    Text.NatToString(Candidate(x))
  }

  /** A candidate's text is always five digits that read back as the candidate. */
  lemma CandidateTextShape(x: Unit)
    ensures var s := CandidateText(x);
      && |s| == 5
      && (forall i :: 0 <= i < |s| ==> Text.IsDigit(s[i]))
      && Text.DigitsValue(s) == Candidate(x)
  {
    var n := Candidate(x);
    assert Text.Pow10(4) == 10000 && Text.Pow10(5) == 100000;
    Text.NatToStringLength(n, 4);
    Text.NatToStringRoundTrip(n);
  }

  /** `Math.floor(Math.random() * 20)`: an initial avatar or team icon. */
  function AvatarIndex(x: Unit): (n: nat)
    ensures n < 20
  {
    var y := x * 20.0;
    assert y.Floor <= 19;
    y.Floor
  }

  /**
   * The outcome of `generateUniquePublicId` when draws `start, start + 1, ...`
   * are used and `attempts` tries are already spent: the first candidate not in
   * `taken`, or `None` once 100 tries are spent; with the cursor after the last draw.
   */
  function PickPublicId(taken: set<string>, draw: nat -> Unit, start: nat, attempts: nat): (r: (Option<string>, nat))
    requires attempts <= MaxAttempts
    ensures start <= r.1 <= start + (MaxAttempts - attempts)
    decreases MaxAttempts - attempts
  {
    if attempts == MaxAttempts then (None, start)
    else
      var id := CandidateText(draw(start));
      if id !in taken then (Some(id), start + 1)
      else PickPublicId(taken, draw, start + 1, attempts + 1)
  }

  /**
   * `generateUniquePublicId`: `taken` holds the public IDs of the chosen model
   * (users or teams). Returns the ID, or `None` where the source throws, and the
   * cursor after the draws used: exactly what `PickPublicId` describes (see
   * `PickIsFree` and `PickExhausted` for what that guarantees).
   */
  method GenerateUniquePublicId(taken: set<string>, draw: nat -> Unit, start: nat) returns (r: Option<string>, next: nat)
    ensures (r, next) == PickPublicId(taken, draw, start, 0)
  {
    var attempts := 0;
    next := start;
    while attempts < MaxAttempts && CandidateText(draw(next)) in taken
      invariant attempts <= MaxAttempts
      invariant PickPublicId(taken, draw, start, 0) == PickPublicId(taken, draw, next, attempts)
      decreases MaxAttempts - attempts
    {
      PickSkipsTaken(taken, draw, next, attempts);
      attempts := attempts + 1;
      next := next + 1;
    }
    if attempts < MaxAttempts {
      PickFound(taken, draw, next, attempts);
      r, next := Some(CandidateText(draw(next))), next + 1;
    } else {
      PickAtLimit(taken, draw, next);
      r := None;
    }
  }

  lemma PickFound(taken: set<string>, draw: nat -> Unit, k: nat, attempts: nat)
    requires attempts < MaxAttempts && CandidateText(draw(k)) !in taken
    ensures PickPublicId(taken, draw, k, attempts) == (Some(CandidateText(draw(k))), k + 1)
  {
  }

  lemma PickAtLimit(taken: set<string>, draw: nat -> Unit, k: nat)
    ensures PickPublicId(taken, draw, k, MaxAttempts) == (None, k)
  {
  }

  /** A returned ID is the first drawn candidate that is free: every earlier candidate was taken. */
  lemma {:induction false} PickIsFree(taken: set<string>, draw: nat -> Unit, start: nat, attempts: nat)
    requires attempts <= MaxAttempts
    ensures var r := PickPublicId(taken, draw, start, attempts);
      r.0.Some? ==>
        && r.0.value !in taken
        && start < r.1 && r.0.value == CandidateText(draw(r.1 - 1))
        && forall k :: start <= k < r.1 - 1 ==> CandidateText(draw(k)) in taken
    decreases MaxAttempts - attempts
  {
    if attempts < MaxAttempts && CandidateText(draw(start)) in taken {
      PickIsFree(taken, draw, start + 1, attempts + 1);
    }
  }

  /** A returned ID is five decimal digits whose value lies within 10000..99999. */
  lemma PickedIdShape(taken: set<string>, draw: nat -> Unit, start: nat, attempts: nat)
    requires attempts <= MaxAttempts
    ensures var r := PickPublicId(taken, draw, start, attempts);
      r.0.Some? ==>
        && |r.0.value| == 5
        && (forall i :: 0 <= i < 5 ==> Text.IsDigit(r.0.value[i]))
        && MinPublicId <= Text.DigitsValue(r.0.value) <= MaxPublicId
  {
    var r := PickPublicId(taken, draw, start, attempts);
    PickIsFree(taken, draw, start, attempts);
    if r.0.Some? {
      CandidateTextShape(draw(r.1 - 1));
    }
  }

  /** No ID comes back only after 100 draws whose candidates were all taken. */
  lemma {:induction false} PickExhausted(taken: set<string>, draw: nat -> Unit, start: nat, attempts: nat)
    requires attempts <= MaxAttempts
    ensures var r := PickPublicId(taken, draw, start, attempts);
      r.0.None? ==>
        && r.1 == start + (MaxAttempts - attempts)
        && forall k :: start <= k < r.1 ==> CandidateText(draw(k)) in taken
    decreases MaxAttempts - attempts
  {
    if attempts < MaxAttempts && CandidateText(draw(start)) in taken {
      PickExhausted(taken, draw, start + 1, attempts + 1);
    }
  }

  lemma PickSkipsTaken(taken: set<string>, draw: nat -> Unit, k: nat, attempts: nat)
    requires attempts < MaxAttempts && CandidateText(draw(k)) in taken
    ensures PickPublicId(taken, draw, k, attempts) == PickPublicId(taken, draw, k + 1, attempts + 1)
  {
  }

  /** The message of the error thrown after 100 failed tries. */
  function ExhaustedMessage(model: string): (m: string)
    ensures Text.StartsWith(m, "Failed to generate unique publicId for ")
  {
    "Failed to generate unique publicId for " + model + " after 100 attempts"
  }

  /** The values `Math.random()` and `crypto.randomBytes` produce, in call order. */
  datatype Oracle = Oracle(draw: nat -> Unit, byte: nat -> bv8)

  /** How much of each random stream has been used. */
  datatype Cursor = Cursor(drawn: nat, bytesUsed: nat)

  /** The next `n` random bytes. */
  function Bytes(o: Oracle, c: Cursor, n: nat): (r: seq<bv8>)
    ensures |r| == n
    ensures forall i :: 0 <= i < n ==> r[i] == o.byte(c.bytesUsed + i)
  {
    seq(n, i requires 0 <= i < n => o.byte(c.bytesUsed + i))
  }

  /** The process-wide sources of randomness, with the position reached in each. */
  class Entropy {
    const oracle: Oracle
    var drawn: nat
    var bytesUsed: nat

    constructor (o: Oracle)
      ensures oracle == o && drawn == 0 && bytesUsed == 0
    {
      oracle := o;
      drawn := 0;
      bytesUsed := 0;
    }

    function At(): Cursor
      reads this
    {
      Cursor(drawn, bytesUsed)
    }

    /** `Math.floor(Math.random() * 20)`. */
    method RandomAvatar() returns (a: nat)
      modifies this
      ensures a == AvatarIndex(oracle.draw(old(drawn)))
      ensures drawn == old(drawn) + 1 && bytesUsed == old(bytesUsed)
    {
      a := AvatarIndex(oracle.draw(drawn));
      drawn := drawn + 1;
    }

    /** `generatePassword(length)` on the next `length` bytes. */
    method NewPassword(length: nat) returns (p: string)
      modifies this
      ensures p == PasswordOf(Bytes(oracle, old(At()), length))
      ensures drawn == old(drawn) && bytesUsed == old(bytesUsed) + length
    {
      p := GeneratePassword(length, Bytes(oracle, At(), length));
      bytesUsed := bytesUsed + length;
    }

    /** `generateUniquePublicId` on the next draws. */
    method NewPublicId(taken: set<string>) returns (r: Option<string>)
      modifies this
      ensures (r, drawn) == PickPublicId(taken, oracle.draw, old(drawn), 0)
      ensures bytesUsed == old(bytesUsed)
    {
      r, drawn := GenerateUniquePublicId(taken, oracle.draw, drawn);
    }
  }
}
