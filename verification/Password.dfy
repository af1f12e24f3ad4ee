/** The textual password record: what HashPassword prints and what VerifyPassword makes of any text. */
module Password {
  import opened Common
  import opened Text
  import opened Pbkdf2
  import Base64

  const ALGORITHM := "pbkdf2-sha256"
  const ITERATIONS: nat := 210000
  const SALT_BYTES: nat := 16
  const KEY_BYTES: nat := 32

  function Print(iterations: nat, salt: Bytes, key: Bytes): string {
    Join([ALGORITHM, Itoa(iterations), Base64.Encode(Base64.Standard, salt), Base64.Encode(Base64.Standard, key)], '$')
  }

  /** The record for a secret and a salt. */
  function Record(prf: Prf, secret: Bytes, salt: Bytes): string {
    Print(ITERATIONS, salt, DerivedKey(prf, secret, salt, ITERATIONS, KEY_BYTES))
  }

  datatype Verdict = Accepted | Rejected | Panicked

  /** VerifyPassword on any text; an empty key part reaches the panic of the key derivation. */
  function Verify(prf: Prf, secret: Bytes, encoded: string): Verdict {
    VerifyParts(prf, secret, Split(encoded, '$'))
  }

  function VerifyParts(prf: Prf, secret: Bytes, parts: seq<string>): Verdict {
    if |parts| != 4 || parts[0] != ALGORITHM then Rejected
    else
      var iterations := Atoi(parts[1]);
      if iterations.None? || iterations.value <= 0 then Rejected
      else
        var salt, expected := Base64.Decode(Base64.Standard, parts[2]), Base64.Decode(Base64.Standard, parts[3]);
        if salt.None? || expected.None? then Rejected
        else if expected.value == [] then Panicked
        else if DerivedKey(prf, secret, salt.value, iterations.value, |expected.value|) == expected.value then Accepted
        else Rejected
  }

  /** `salt` is what the random source delivered. */
  method HashPassword(prf: Prf, password: Bytes, pepper: Bytes, salt: Bytes) returns (encoded: string)
    requires |salt| == SALT_BYTES
    ensures Split(encoded, '$') ==
            ["pbkdf2-sha256", "210000", Base64.Encode(Base64.Standard, salt),
             Base64.Encode(Base64.Standard, DerivedKey(prf, password + pepper, salt, ITERATIONS, KEY_BYTES))]
    ensures encoded == Record(prf, password + pepper, salt)
    ensures Verify(prf, password + pepper, encoded) == Accepted
  {
    var key := DeriveKey(prf, password + pepper, salt, ITERATIONS, KEY_BYTES);
    encoded := Join([ALGORITHM, Itoa(ITERATIONS), Base64.Encode(Base64.Standard, salt),
                     Base64.Encode(Base64.Standard, key)], '$');
    RecordRoundTrip(prf, password + pepper, salt, password + pepper);
    RecordParts(prf, password + pepper, salt);
  }

  /** Under one pepper, different passwords are different secrets. */
  lemma PepperTellsPasswordsApart(a: Bytes, b: Bytes, pepper: Bytes)
    ensures a + pepper == b + pepper <==> a == b
  {
    if a + pepper == b + pepper {
      assert |a| == |b| && a == (a + pepper)[..|a|] && b == (b + pepper)[..|b|];
    }
  }

  lemma RecordParts(prf: Prf, secret: Bytes, salt: Bytes)
    ensures Split(Record(prf, secret, salt), '$') ==
            ["pbkdf2-sha256", "210000", Base64.Encode(Base64.Standard, salt),
             Base64.Encode(Base64.Standard, DerivedKey(prf, secret, salt, ITERATIONS, KEY_BYTES))]
  {
    PrintedParts(ITERATIONS, salt, DerivedKey(prf, secret, salt, ITERATIONS, KEY_BYTES));
    ItoaOfIterations();
  }

  lemma ItoaOfIterations()
    ensures Itoa(210000) == "210000"
  {
    assert Itoa(2) == "2" && Itoa(21) == "21" && Itoa(210) == "210";
    assert Itoa(2100) == "2100" && Itoa(21000) == "21000";
  }

  lemma PrintedParts(iterations: nat, salt: Bytes, key: Bytes)
    ensures Split(Print(iterations, salt, key), '$') ==
            [ALGORITHM, Itoa(iterations), Base64.Encode(Base64.Standard, salt), Base64.Encode(Base64.Standard, key)]
  {
    DigitsOfItoa(iterations);
    assert '$' !in Itoa(iterations);
    Base64.NeverEncoded(Base64.Standard, salt, '$');
    Base64.NeverEncoded(Base64.Standard, key, '$');
    SplitUndoesJoin([ALGORITHM, Itoa(iterations), Base64.Encode(Base64.Standard, salt),
                     Base64.Encode(Base64.Standard, key)], '$');
  }

  /** Four parts: this algorithm, a positive number of iterations, and a salt in base64. */
  predicate NamesKey(parts: seq<string>) {
    && |parts| == 4 && parts[0] == ALGORITHM
    && Atoi(parts[1]).Some? && Atoi(parts[1]).value > 0
    && Base64.Decode(Base64.Standard, parts[2]).Some?
  }

  /** The key part decodes to a key, which the secret derives from the salt. */
  predicate HoldsKeyOf(prf: Prf, secret: Bytes, parts: seq<string>)
    requires NamesKey(parts)
  {
    var salt, key := Base64.Decode(Base64.Standard, parts[2]).value, Base64.Decode(Base64.Standard, parts[3]);
    key.Some? && key.value != [] && DerivedKey(prf, secret, salt, Atoi(parts[1]).value, |key.value|) == key.value
  }

  /** On any text: a panic exactly for an empty key part, acceptance exactly for a key that the secret derives. */
  lemma VerdictExactlyWhen(prf: Prf, secret: Bytes, encoded: string)
    ensures var parts := Split(encoded, '$');
            && (Verify(prf, secret, encoded) == Panicked <==> NamesKey(parts) && Base64.WithoutBreaks(parts[3]) == "")
            && (Verify(prf, secret, encoded) == Accepted <==> NamesKey(parts) && HoldsKeyOf(prf, secret, parts))
  {
    PartsVerdict(prf, secret, Split(encoded, '$'));
  }

  lemma PartsVerdict(prf: Prf, secret: Bytes, parts: seq<string>)
    ensures VerifyParts(prf, secret, parts) == Panicked <==> NamesKey(parts) && Base64.WithoutBreaks(parts[3]) == ""
    ensures VerifyParts(prf, secret, parts) == Accepted <==> NamesKey(parts) && HoldsKeyOf(prf, secret, parts)
  {
    if NamesKey(parts) {
      Base64.DecodesToNothingExactlyWhen(Base64.Standard, parts[3]);
    }
  }

  method VerifyPassword(prf: Prf, password: Bytes, pepper: Bytes, encoded: string) returns (verdict: Verdict)
    ensures verdict == Verify(prf, password + pepper, encoded)
    ensures verdict == Panicked <==>
            NamesKey(Split(encoded, '$')) && Base64.WithoutBreaks(Split(encoded, '$')[3]) == ""
    ensures verdict == Accepted <==>
            NamesKey(Split(encoded, '$')) && HoldsKeyOf(prf, password + pepper, Split(encoded, '$'))
  {
    VerdictExactlyWhen(prf, password + pepper, encoded);
    var parts := Split(encoded, '$');
    if |parts| != 4 || parts[0] != ALGORITHM { return Rejected; }
    var iterations := Atoi(parts[1]);
    if iterations.None? || iterations.value <= 0 { return Rejected; }
    var salt := Base64.Decode(Base64.Standard, parts[2]);
    if salt.None? { return Rejected; }
    var expected := Base64.Decode(Base64.Standard, parts[3]);
    if expected.None? { return Rejected; }
    if expected.value == [] { return Panicked; }
    var actual := DeriveKey(prf, password + pepper, salt.value, iterations.value, |expected.value|);
    return if actual == expected.value then Accepted else Rejected;
  }

  /** Reading a printed line gives its fields back, whatever the salt and the key; without a key it panics. */
  lemma PrintedIsReadBack(prf: Prf, secret: Bytes, iterations: nat, salt: Bytes, key: Bytes)
    requires 0 < iterations <= MAX_INT
    ensures Verify(prf, secret, Print(iterations, salt, key)) ==
            if key == [] then Panicked
            else if DerivedKey(prf, secret, salt, iterations, |key|) == key then Accepted else Rejected
  {
    PrintedParts(iterations, salt, key);
    AtoiUndoesItoa(iterations);
    Base64.RoundTrip(Base64.Standard, salt);
    Base64.RoundTrip(Base64.Standard, key);
  }

  /**
    A printed record splits into its four parts and decodes to what was printed: it is accepted
    for another secret exactly when both derive the same key, and it never panics.
   */
  lemma RecordRoundTrip(prf: Prf, secret: Bytes, salt: Bytes, other: Bytes)
    ensures Verify(prf, other, Record(prf, secret, salt)) ==
            if DerivedKey(prf, other, salt, ITERATIONS, KEY_BYTES) ==
               DerivedKey(prf, secret, salt, ITERATIONS, KEY_BYTES)
            then Accepted else Rejected
  {
    var key := DerivedKey(prf, secret, salt, ITERATIONS, KEY_BYTES);
    DerivedKeyLength(prf, secret, salt, ITERATIONS, KEY_BYTES);
    PrintedIsReadBack(prf, other, ITERATIONS, salt, key);
  }
}
