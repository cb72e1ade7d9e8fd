/**
 * The user input schemas: the username and password checks of `UserCreate`,
 * the username check of `UserUpdate`, and the new-password check of
 * `UserChangePassword`.
 */
module UserSchema {
  import opened Text

  /**
   * `UserCreate.validate_username`: at least 3 characters (checked first),
   * alphanumeric, returned lower-cased.
   */
  function ValidateUsername(v: Str): (r: Result<Str>)
    ensures r.Ok? <==> |v| >= 3 && IsAlnum(v)
    ensures |v| < 3 ==> r == Err(ValueError("Username must be at least 3 characters"))
    ensures |v| >= 3 && !IsAlnum(v) ==> r == Err(ValueError("Username must be alphanumeric"))
    ensures r.Ok? ==> |r.value| >= 3 && IsAlnum(r.value)
    ensures r.Ok? ==> IsLowerCased(r.value) && SameIgnoringCase(r.value, v)
  {
    LowerNormalises(v);
    if |v| < 3 then
      Err(ValueError("Username must be at least 3 characters"))
    else if !IsAlnum(v) then
      Err(ValueError("Username must be alphanumeric"))
    else
      Ok(Lower(v))
  }

  /** Validating an accepted username again returns it unchanged. */
  lemma ValidateUsernameIdempotent(v: Str)
    requires ValidateUsername(v).Ok?
    ensures ValidateUsername(ValidateUsername(v).value) == ValidateUsername(v)
  {
    LowerNormalises(v);
  }

  /** `UserCreate.validate_password`: at least 8 characters, returned unchanged. */
  function ValidatePassword(v: Str): (r: Result<Str>)
    ensures r.Ok? <==> |v| >= 8
    ensures r.Ok? ==> r.value == v
    ensures r.Err? ==> r.error == ValueError("Password must be at least 8 characters")
  {
    if |v| < 8 then Err(ValueError("Password must be at least 8 characters")) else Ok(v)
  }

  /** `UserChangePassword.validate_new_password`: at least 8 characters, returned unchanged. */
  function ValidateNewPassword(v: Str): (r: Result<Str>)
    ensures r.Ok? <==> |v| >= 8
    ensures r.Ok? ==> r.value == v
    ensures r.Err? ==> r.error == ValueError("Password must be at least 8 characters")
  {
    if |v| < 8 then Err(ValueError("Password must be at least 8 characters")) else Ok(v)
  }

  /** A password change applies exactly the rule used at sign-up. */
  lemma PasswordRulesAgree(v: Str)
    ensures ValidateNewPassword(v) == ValidatePassword(v)
  {
  }

  /**
   * `UserUpdate.validate_username`: `None` and "" pass through unchanged;
   * any other value needs at least 3 characters and is returned lower-cased.
   * There is no alphanumeric check.
   */
  function ValidateUpdateUsername(v: Option<Str>): (r: Result<Option<Str>>)
    ensures v == None || v == Some([]) ==> r == Ok(v)
    ensures v.Some? && 0 < |v.value| < 3 ==> r == Err(ValueError("Username must be at least 3 characters"))
    ensures v.Some? && |v.value| >= 3 ==>
      r.Ok? && r.value.Some? && IsLowerCased(r.value.value) && SameIgnoringCase(r.value.value, v.value)
  {
    LowerNormalises(if v.Some? then v.value else []);
    if v.Some? && v.value != [] && |v.value| < 3 then
      Err(ValueError("Username must be at least 3 characters"))
    else if v.Some? && v.value != [] then
      Ok(Some(Lower(v.value)))
    else
      Ok(v)
  }

  /** Every username accepted at creation is accepted by an update, with the same stored value. */
  lemma UpdateAcceptsCreatedUsernames(v: Str)
    requires ValidateUsername(v).Ok?
    ensures ValidateUpdateUsername(Some(v)) == Ok(Some(ValidateUsername(v).value))
  {
  }

  /**
   * The converse fails: an update accepts the empty username and
   * non-alphanumeric ones, both refused at creation.
   */
  lemma UpdateAcceptsMoreThanCreate()
    ensures ValidateUpdateUsername(Some([])) == Ok(Some([])) && ValidateUsername([]).Err?
    ensures ValidateUpdateUsername(Some("a-b")) == Ok(Some("a-b")) && ValidateUsername("a-b").Err?
  {
    var s: Str := "a-b";
    assert !IsAlnumChar(s[1]);
    assert Lower(s) == s;
  }
}
