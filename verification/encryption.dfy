/**
 * The password encryption service: bcrypt when the `ENABLE_ENCRYPTION`
 * setting turns it on, plain text otherwise.
 */
module Encryption {
  import opened Wrappers

  /**
   * The bcrypt library, left abstract. `hash` stands for hashing with a
   * freshly generated salt (the salt is folded into the function).
   */
  datatype Bcrypt = Bcrypt(hash: string -> string, compare: (string, string) -> bool)

  /** The one property relied on from bcrypt: a password matches its own digest. */
  ghost predicate Sound(b: Bcrypt) {
    forall p :: b.compare(p, b.hash(p))
  }

  /** The service, with the `enable` flag fixed when it is constructed. */
  datatype Service = Service(enable: bool, bcrypt: Bcrypt)

  /** Characters JavaScript's `Number(string)` strips from both ends. */
  predicate IsWhitespace(c: char) {
    c as int in {9, 10, 11, 12, 13, 32, 160, 0x1680, 0x2028, 0x2029, 0x202F, 0x205F, 0x3000, 0xFEFF}
    || 0x2000 <= c as int <= 0x200A
  }

  function TrimStart(s: string): string {
    if |s| > 0 && IsWhitespace(s[0]) then TrimStart(s[1..]) else s
  }

  function TrimEnd(s: string): string {
    if |s| > 0 && IsWhitespace(s[|s| - 1]) then TrimEnd(s[..|s| - 1]) else s
  }

  function Trim(s: string): string {
    TrimEnd(TrimStart(s))
  }

  predicate IsDigit(c: char) {
    '0' <= c <= '9'
  }

  predicate AllDigits(s: string) {
    forall i :: 0 <= i < |s| ==> IsDigit(s[i])
  }

  /** The value of a non-empty run of decimal digits. */
  function DigitsValue(s: string): nat
    requires AllDigits(s)
  {
    if |s| == 0 then 0
    else 10 * DigitsValue(s[..|s| - 1]) + (s[|s| - 1] as int - '0' as int)
  }

  /**
   * JavaScript's `Number(setting)` for an optional configuration string,
   * restricted to signed decimal integers; `None` stands for `NaN`.
   * `Number(undefined)` is `NaN` and `Number("")` (after trimming) is 0.
   */
  function ToNumber(setting: Option<string>): Option<int> {
    match setting
    case None => None
    case Some(s) =>
      var t := Trim(s);
      if |t| == 0 then Some(0)
      else if t[0] == '-' && |t| > 1 && AllDigits(t[1..]) then Some(-(DigitsValue(t[1..]) as int))
      else if t[0] == '+' && |t| > 1 && AllDigits(t[1..]) then Some(DigitsValue(t[1..]))
      else if AllDigits(t) then Some(DigitsValue(t))
      else None
  }

  /** `Boolean(Number(setting))`: the `enable` flag the service is constructed with. */
  function Enabled(setting: Option<string>): bool {
    var n := ToNumber(setting);
    n.Some? && n.value != 0
  }

  /** A run of digits has value zero exactly when every digit is `0`. */
  lemma {:induction false} DigitsValueZero(s: string)
    requires AllDigits(s)
    ensures DigitsValue(s) == 0 <==> forall i :: 0 <= i < |s| ==> s[i] == '0'
  {
    if |s| > 0 {
      var init := s[..|s| - 1];
      assert AllDigits(init);
      DigitsValueZero(init);
      if DigitsValue(s) == 0 {
        forall i | 0 <= i < |s| ensures s[i] == '0' {
          if i < |s| - 1 {
            assert s[i] == init[i];
          }
        }
      }
    }
  }

  /** A numeral: optional sign followed by at least one digit. */
  predicate IsNumeral(t: string) {
    || (|t| > 0 && AllDigits(t))
    || (|t| > 1 && (t[0] == '-' || t[0] == '+') && AllDigits(t[1..]))
  }

  /**
   * Encryption is on exactly when the trimmed setting is a signed decimal
   * numeral with a non-zero digit; an unset, empty or non-numeric setting
   * (such as "true") leaves it off.
   */
  lemma EnabledIffNonZeroNumeral(setting: Option<string>)
    ensures Enabled(setting) <==>
      setting.Some? &&
      var t := Trim(setting.value);
      IsNumeral(t) && exists i :: 0 <= i < |t| && '1' <= t[i] <= '9'
  {
    if setting.Some? {
      var t := Trim(setting.value);
      if |t| > 1 && (t[0] == '-' || t[0] == '+') && AllDigits(t[1..]) {
        DigitsValueZero(t[1..]);
        assert forall i :: 1 <= i < |t| ==> t[i] == t[1..][i - 1];
      } else if |t| > 0 && AllDigits(t) {
        DigitsValueZero(t);
      }
    }
  }

  /** The settings a deployment is likely to use: only a non-zero number turns encryption on. */
  lemma EnabledExamples()
    ensures Enabled(Some("1")) && Enabled(Some(" 2 "))
    ensures !Enabled(Some("0")) && !Enabled(Some("")) && !Enabled(None)
    ensures !Enabled(Some("true")) && !Enabled(Some("false"))
  {
    assert Trim("1") == "1";
    assert TrimEnd(" 2 "[1..]) == "2";
    assert Trim(" 2 ") == "2";
    assert Trim("0") == "0";
    assert Trim("true") == "true" && !IsDigit('t');
    assert Trim("false") == "false" && !IsDigit('f');
  }

  /** `hash`: bcrypt when enabled, the password itself otherwise. */
  function Hash(e: Service, password: string): string {
    if e.enable then e.bcrypt.hash(password) else password
  }

  /** `verify`: bcrypt's compare when enabled, string equality otherwise. */
  function Verify(e: Service, password: string, encrypted: string): bool {
    if e.enable then e.bcrypt.compare(password, encrypted) else password == encrypted
  }

  /** In both modes a password verifies against its own hash. */
  lemma VerifyOwnHash(e: Service, password: string)
    requires Sound(e.bcrypt)
    ensures Verify(e, password, Hash(e, password))
  {
  }

  /** Disabled: `hash` is the identity and `verify(p, hash(q))` holds iff `p == q`. */
  lemma DisabledIsPlainText(e: Service, p: string, q: string)
    requires !e.enable
    ensures Hash(e, p) == p
    ensures Verify(e, p, Hash(e, q)) <==> p == q
  {
  }

  /** Enabled: both operations only delegate to bcrypt. */
  lemma EnabledDelegates(e: Service, p: string, encrypted: string)
    requires e.enable
    ensures Hash(e, p) == e.bcrypt.hash(p)
    ensures Verify(e, p, encrypted) == e.bcrypt.compare(p, encrypted)
  {
  }
}
