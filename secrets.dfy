/** Generation of the setup-network password and the device token. The
    hardware-seeded `random()` is replaced by the sequence of values it returns. */
module Secrets {

  /** The 36 symbols a secret is drawn from. */
  const ALPHABET: string := "0123456789ABCDEFGHIJKLMNOPQRSTUVWXYZ"

  /** One value of `random(36)`: an index into `ALPHABET`. */
  type Draw = d: int | 0 <= d < 36

  /** Length of the setup-network password generated at boot. */
  const AP_PASSWORD_LENGTH: nat := 8

  /** Length of the device token generated at boot. */
  const TOKEN_LENGTH: nat := 12

  /** Every character of `s` is one of the 36 symbols. */
  predicate IsSecret(s: string)
  {
    forall k :: 0 <= k < |s| ==> s[k] in ALPHABET
  }

  /** The string the generator builds from a sequence of draws. */
  function Spell(draws: seq<Draw>): (s: string)
    ensures |s| == |draws|
    ensures forall k :: 0 <= k < |draws| ==> s[k] == ALPHABET[draws[k]]
    ensures IsSecret(s)
    decreases |draws|
  {
    if draws == [] then "" else Spell(draws[..|draws| - 1]) + [ALPHABET[draws[|draws| - 1]]]
  }

  /** `generateRandomPassword(length)`: appends one drawn symbol per round of a
      counted loop; a length of zero or less gives the empty string. */
  method GenerateRandomPassword(length: int, draws: seq<Draw>) returns (password: string)
    requires length <= |draws|
    ensures |password| == if length < 0 then 0 else length
    ensures forall k :: 0 <= k < |password| ==> password[k] == ALPHABET[draws[k]]
    ensures IsSecret(password)
    ensures password == Spell(draws[..|password|])
  {
    password := "";
    var i := 0;
    while i < length
      invariant 0 <= i <= |draws|
      invariant length >= 0 ==> i <= length
      invariant length < 0 ==> i == 0
      invariant password == Spell(draws[..i])
    {
      assert draws[..i + 1][..i] == draws[..i];
      password := password + [ALPHABET[draws[i]]];
      i := i + 1;
    }
  }

  /** `generateDeviceToken()`: a 12-symbol secret. */
  method GenerateDeviceToken(draws: seq<Draw>) returns (token: string)
    requires TOKEN_LENGTH <= |draws|
    ensures |token| == TOKEN_LENGTH
    ensures IsSecret(token)
    ensures token == Spell(draws[..TOKEN_LENGTH])
  {
    token := GenerateRandomPassword(TOKEN_LENGTH, draws);
  }

  /** Spelling commutes with concatenation: drawing `a` then `b` spells `a` then `b`. */
  lemma {:induction false} SpellAppend(a: seq<Draw>, b: seq<Draw>)
    ensures Spell(a + b) == Spell(a) + Spell(b)
    decreases |b|
  {
    if b == [] {
      assert a + b == a;
    } else {
      var b' := b[..|b| - 1];
      assert (a + b)[..|a + b| - 1] == a + b';
      SpellAppend(a, b');
    }
  }
}
