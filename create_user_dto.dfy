/** The zod schema of the user-registration body. */
module CreateUserDto {

  predicate HasUpper(s: string) {
    exists i | 0 <= i < |s| :: 'A' <= s[i] <= 'Z'
  }

  predicate HasLower(s: string) {
    exists i | 0 <= i < |s| :: 'a' <= s[i] <= 'z'
  }

  predicate HasDigit(s: string) {
    exists i | 0 <= i < |s| :: '0' <= s[i] <= '9'
  }

  /**
   * JavaScript's `string.length`, which zod's `.min` and `.max` compare: a
   * character outside the Basic Multilingual Plane is a surrogate pair and
   * counts as two code units.
   */
  function Utf16Length(s: string): (n: nat)
    ensures |s| <= n <= 2 * |s|
  {
    if s == [] then 0 else (if s[0] as int > 0xFFFF then 2 else 1) + Utf16Length(s[1..])
  }

  /** A string of Basic Multilingual Plane characters is as long in code units as in characters. */
  lemma {:induction false} BmpLength(s: string)
    requires forall i | 0 <= i < |s| :: s[i] as int <= 0xFFFF
    ensures Utf16Length(s) == |s|
  {
    if s != [] {
      assert forall i | 0 <= i < |s[1..]| :: s[1..][i] == s[i + 1];
      BmpLength(s[1..]);
    }
  }

  /** The five password rules, in the order zod reports them. */
  predicate ValidPassword(p: string) {
    && 8 <= Utf16Length(p)
    && Utf16Length(p) <= 100
    && HasUpper(p)
    && HasLower(p)
    && HasDigit(p)
  }

  /**
   * A registration body. The schema omits `id`, `password_hash`,
   * `registration_date`, `recovery_token`, `recovery_token_expires` and `active`,
   * so a client cannot set them.
   */
  datatype CreateUserInput = CreateUserInput(
    name: string,
    username: string,
    email: string,
    password: string)

  predicate ValidCreate(i: CreateUserInput) {
    ValidPassword(i.password)
  }

  /** A password meeting all five rules is accepted. */
  lemma PasswordAccepted()
    ensures ValidPassword("Secret123")
  {
    var p := "Secret123";
    assert 'A' <= p[0] <= 'Z' && 'a' <= p[1] <= 'z' && '0' <= p[6] <= '9';
    BmpLength(p);
  }

  /** The upper-case rule refuses a password that breaks only it. */
  lemma PasswordNeedsUpper()
    ensures !ValidPassword("secret123")
  {
    var p := "secret123";
    assert !HasUpper(p) by {
      assert forall i | 0 <= i < |p| :: !('A' <= p[i] <= 'Z');
    }
  }

  /** The lower-case rule refuses a password that breaks only it. */
  lemma PasswordNeedsLower()
    ensures !ValidPassword("SECRET123")
  {
    var p := "SECRET123";
    assert !HasLower(p) by {
      assert forall i | 0 <= i < |p| :: !('a' <= p[i] <= 'z');
    }
  }

  /** The digit rule refuses a password that breaks only it. */
  lemma PasswordNeedsDigit()
    ensures !ValidPassword("SecretKey")
  {
    var p := "SecretKey";
    assert !HasDigit(p) by {
      assert forall i | 0 <= i < |p| :: !('0' <= p[i] <= '9');
    }
  }

  /** The minimum refuses a password that breaks only it. */
  lemma PasswordTooShort()
    ensures !ValidPassword("Sec123")
  {
    BmpLength("Sec123");
  }

  /** The maximum is inclusive: 100 code units are accepted, 101 are not. */
  lemma PasswordLengthLimit(filler: string)
    requires forall i | 0 <= i < |filler| :: filler[i] == 'a'
    ensures |filler| == 97 ==> ValidPassword("Aa1" + filler)
    ensures |filler| == 98 ==> !ValidPassword("Aa1" + filler)
  {
    var p := "Aa1" + filler;
    assert p[0] == 'A' && p[1] == 'a' && p[2] == '1';
    assert forall i | 0 <= i < |p| :: p[i] as int <= 0xFFFF by {
      forall i | 0 <= i < |p| ensures p[i] as int <= 0xFFFF {
        if i >= 3 { assert p[i] == filler[i - 3]; }
      }
    }
    BmpLength(p);
  }

  /**
   * Length is counted in code units: seven characters, one of them outside
   * the Basic Multilingual Plane, meet the minimum of eight.
   */
  lemma AstralCharactersCountTwice()
    ensures ValidPassword("Ab1xyz\U{1F600}")
  {
    var p := "Ab1xyz\U{1F600}";
    assert 'A' <= p[0] <= 'Z' && 'a' <= p[1] <= 'z' && '0' <= p[2] <= '9';
    assert Utf16Length(p) == 8;
  }
}
