/** Input validation: the part of validate.js the pipeline uses (the
    `presence`, `exclusion` and `length.minimum` validators), the two rule
    sets `registerRule` and `loginRule`, and `validation`, which reduces
    validate.js's error object to one message. */
module InputValidation {
  import opened Wrappers
  import opened JsString

  /** The two request fields the rules look at; `None` is a field the
      request body does not carry. */
  datatype Credentials = Credentials(email: Option<string>, password: Option<string>)

  /** A message with one `%{value}` placeholder: `before`, the value, `after`. */
  datatype Template = Template(before: string, after: string)

  datatype Constraint =
    | Presence
    | Exclusion(within: seq<string>, template: Template)
    | MinLength(minimum: nat, message: string)

  /** The constraints on `email` and on `password`, in declaration order.
      (`registerRule` also declares `picture: { presence: false }`, which
      validate.js skips, so it is not represented.) */
  datatype Rule = Rule(email: seq<Constraint>, password: seq<Constraint>)

  /** `registerRule()` built from the snapshot `emails` of stored emails:
      the email is required and must not be in the snapshot; the password
      is required and must be at least 8 long (in UTF-16 code units). */
  function RegisterRule(emails: seq<string>): (r: Rule)
    ensures |r.email| == 2 && |r.password| == 2
    ensures forall v :: Check(r.email[0], v).Some? <==> v.None?
    ensures forall v :: Check(r.email[1], v).Some? <==> v.Some? && v.value in emails
    ensures forall v :: Check(r.password[0], v).Some? <==> v.None?
    ensures forall v :: Check(r.password[1], v).Some? <==> v.Some? && Utf16Length(v.value) < 8
  {
    Rule([Presence, Exclusion(emails, Template("'", "' is already used"))],
         [Presence, MinLength(8, "must be at least 8 characters")])
  }

  /** `loginRule`: both fields are required, nothing more. */
  function LoginRule(): (r: Rule)
    ensures |r.email| == 1 && |r.password| == 1
    ensures forall v :: Check(r.email[0], v).Some? <==> v.None?
    ensures forall v :: Check(r.password[0], v).Some? <==> v.None?
  {
    Rule([Presence], [Presence])
  }

  /** The element of `within` whose index is written `value`, searching
      the indices from `k` on. */
  function ElementFrom(within: seq<string>, value: string, k: nat): (r: Option<string>)
    decreases |within| - k
    ensures r.Some? ==> exists j :: k <= j < |within| && Decimal(j) == value && r.value == within[j]
    ensures r.None? ==> forall j :: k <= j < |within| ==> Decimal(j) != value
  {
    if k >= |within| then None
    else if Decimal(k) == value then Some(within[k])
    else ElementFrom(within, value, k + 1)
  }

  /** The value the exclusion validator puts in its message. validate.js
      shows `within[value]` instead of the value when that is a string; for
      an array of strings that is the case exactly when the value is the
      decimal form of one of its indices. */
  function Displayed(within: seq<string>, value: string): (shown: string)
    ensures forall k :: 0 <= k < |within| && Decimal(k) == value ==> shown == within[k]
    ensures (forall k :: 0 <= k < |within| ==> Decimal(k) != value) ==> shown == value
  {
    match ElementFrom(within, value, 0)
    case None => value
    case Some(e) =>
      assert forall k, j :: 0 <= k < |within| && 0 <= j < |within| && Decimal(k) == value && Decimal(j) == value ==> k == j by {
        forall k, j | 0 <= k < |within| && 0 <= j < |within| && Decimal(k) == value && Decimal(j) == value
          ensures k == j
        {
          DecimalInjective(k, j);
        }
      }
      e
  }

  /** A value with a character that is not a digit (every email, since
      it holds `@`) is shown as it is. */
  lemma DisplayedNonIndex(within: seq<string>, value: string, i: nat)
    requires i < |value| && !('0' <= value[i] <= '9')
    ensures Displayed(within, value) == value
  {
  }

  /** One validator applied to one value: its message when the value
      fails it. As in validate.js (0.12 and later, where `presence` allows
      empty strings), `presence` fails only a value that is not defined, and
      every other validator passes a value that is not defined. */
  function Check(c: Constraint, value: Option<string>): (m: Option<string>)
    ensures c.Presence? ==> (m.Some? <==> value.None?) && (m.Some? ==> m.value == "can't be blank")
    ensures c.Exclusion? ==> (m.Some? <==> value.Some? && value.value in c.within) &&
                             (m.Some? ==> m.value == c.template.before + Displayed(c.within, value.value) + c.template.after)
    ensures c.MinLength? ==> (m.Some? <==> value.Some? && Utf16Length(value.value) < c.minimum) &&
                             (m.Some? ==> m.value == c.message)
  {
    match c
    case Presence =>
      if value.None? then Some("can't be blank") else None
    case Exclusion(within, t) =>
      if value.Some? && value.value in within then Some(t.before + Displayed(within, value.value) + t.after) else None
    case MinLength(minimum, message) =>
      if value.Some? && Utf16Length(value.value) < minimum then Some(message) else None
  }

  /** The full messages of one attribute: each failing validator's message
      prefixed by the attribute's display name, in declaration order. */
  function FieldErrors(name: string, cs: seq<Constraint>, value: Option<string>): (errs: seq<string>)
    ensures errs == [] <==> forall i :: 0 <= i < |cs| ==> Check(cs[i], value).None?
    ensures forall m :: m in errs ==>
              exists i :: 0 <= i < |cs| && Check(cs[i], value).Some? && m == name + " " + Check(cs[i], value).value
  {
    if cs == [] then []
    else
      var rest := FieldErrors(name, cs[1..], value);
      assert forall i :: 1 <= i < |cs| ==> cs[i] == cs[1..][i - 1];
      FullMessage(name, Check(cs[0], value)) + rest
  }

  /** A validator's message, if any, as a full message of attribute `name`. */
  function FullMessage(name: string, m: Option<string>): seq<string> {
    match m
    case None => []
    case Some(msg) => [name + " " + msg]
  }

  /** The messages of an attribute with two validators. */
  lemma FieldErrorsOfTwo(name: string, c0: Constraint, c1: Constraint, value: Option<string>)
    ensures FieldErrors(name, [c0, c1], value) == FullMessage(name, Check(c0, value)) + FullMessage(name, Check(c1, value))
  {
    assert [c0, c1][1..] == [c1];
    assert [c1][1..] == [];
  }

  /** The messages of an attribute with one validator. */
  lemma FieldErrorsOfOne(name: string, c0: Constraint, value: Option<string>)
    ensures FieldErrors(name, [c0], value) == FullMessage(name, Check(c0, value))
  {
    assert [c0][1..] == [];
  }

  /** validate.js's error object: attribute name to messages, holding only
      attributes with at least one message. */
  type ErrorMap = map<string, seq<string>>

  /** `validate(data, rule)`: `None` (`undefined`) when nothing fails. */
  function Validate(data: Credentials, rule: Rule): (r: Option<ErrorMap>)
    ensures var e, p := FieldErrors("Email", rule.email, data.email), FieldErrors("Password", rule.password, data.password);
      (r.None? <==> e == [] && p == []) &&
      (r.Some? ==> ("email" in r.value <==> e != []) && ("password" in r.value <==> p != [])) &&
      (r.Some? && e != [] ==> r.value["email"] == e) &&
      (r.Some? && p != [] ==> r.value["password"] == p)
  {
    var e := FieldErrors("Email", rule.email, data.email);
    var p := FieldErrors("Password", rule.password, data.password);
    if e == [] && p == [] then None
    else Some((if e == [] then map[] else map["email" := e]) + (if p == [] then map[] else map["password" := p]))
  }

  /** `validation(data, rule)`: no message when validate.js reports none;
      otherwise the first email message if `email` has an entry, else the
      first password message. Entries for other attributes are ignored. */
  function Validation(val: Option<ErrorMap>): (r: Option<string>)
    ensures val.None? ==> r.None?
    ensures val.Some? && "email" in val.value && val.value["email"] != [] ==> r == Some(val.value["email"][0])
    ensures val.Some? && "email" !in val.value && "password" in val.value && val.value["password"] != [] ==>
              r == Some(val.value["password"][0])
    ensures val.Some? && "email" !in val.value && "password" !in val.value ==> r.None?
    ensures r.Some? ==>
              val.Some? &&
              (("email" in val.value && val.value["email"] != [] && r.value == val.value["email"][0]) ||
               ("email" !in val.value && "password" in val.value && val.value["password"] != [] &&
                r.value == val.value["password"][0]))
  {
    match val
    case None => None
    case Some(m) =>
      if "email" in m then (if m["email"] != [] then Some(m["email"][0]) else None)
      else if "password" in m then (if m["password"] != [] then Some(m["password"][0]) else None)
      else None
  }

  /** The value of `validation` is truthy: a non-empty message. */
  predicate Rejects(check: Option<string>) {
    check.Some? && check.value != ""
  }

  /** Only the `email` and `password` entries decide `validation`. */
  lemma ValidationIgnoresOtherFields(m: ErrorMap, m': ErrorMap)
    requires ("email" in m <==> "email" in m') && ("email" in m ==> m["email"] == m'["email"])
    requires ("password" in m <==> "password" in m') && ("password" in m ==> m["password"] == m'["password"])
    ensures Validation(Some(m)) == Validation(Some(m'))
  {
  }

  /** The email messages of `registerRule`: blank, or already used. */
  lemma RegisterEmailErrors(email: Option<string>, emails: seq<string>)
    ensures email.None? ==>
      FieldErrors("Email", RegisterRule(emails).email, email) == ["Email can't be blank"]
    ensures email.Some? && email.value in emails ==>
      FieldErrors("Email", RegisterRule(emails).email, email) ==
        ["Email '" + Displayed(emails, email.value) + "' is already used"]
    ensures email.Some? && email.value !in emails ==>
      FieldErrors("Email", RegisterRule(emails).email, email) == []
  {
    var exclusion := Exclusion(emails, Template("'", "' is already used"));
    assert RegisterRule(emails).email == [Presence, exclusion];
    FieldErrorsOfTwo("Email", Presence, exclusion, email);
    if email.None? {
      assert Check(exclusion, email).None?;
      BlankEmailMessage();
    } else if email.value in emails {
      assert Check(Presence, email).None?;
      UsedEmailMessage(Displayed(emails, email.value));
    } else {
      assert Check(Presence, email).None? && Check(exclusion, email).None?;
    }
  }

  // BlankEmailMessage, UsedEmailMessage, BlankPasswordMessage and
  // TooShortMessage only join string literals. They are separate lemmas,
  // not inline asserts, so that the proofs that use them keep a small
  // context; they state nothing about the service.

  lemma BlankEmailMessage()
    ensures "Email" + " " + "can't be blank" == "Email can't be blank"
  {
  }

  lemma UsedEmailMessage(e: string)
    ensures "Email" + " " + ("'" + e + "' is already used") == "Email '" + e + "' is already used"
  {
  }

  /** The password messages of `registerRule`: blank, or too short. */
  lemma RegisterPasswordErrors(password: Option<string>, emails: seq<string>)
    ensures password.None? ==>
      FieldErrors("Password", RegisterRule(emails).password, password) == ["Password can't be blank"]
    ensures password.Some? && Utf16Length(password.value) < 8 ==>
      FieldErrors("Password", RegisterRule(emails).password, password) == ["Password must be at least 8 characters"]
    ensures password.Some? && Utf16Length(password.value) >= 8 ==>
      FieldErrors("Password", RegisterRule(emails).password, password) == []
  {
    var minLength := MinLength(8, "must be at least 8 characters");
    assert RegisterRule(emails).password == [Presence, minLength];
    FieldErrorsOfTwo("Password", Presence, minLength, password);
    if password.None? {
      assert Check(minLength, password).None?;
      BlankPasswordMessage();
    } else if Utf16Length(password.value) < 8 {
      assert Check(minLength, password) == Some("must be at least 8 characters");
      TooShortMessage();
    } else {
      assert Check(minLength, password).None?;
    }
  }

  lemma BlankPasswordMessage()
    ensures "Password" + " " + "can't be blank" == "Password can't be blank"
  {
  }

  lemma TooShortMessage()
    ensures "Password" + " " + "must be at least 8 characters" == "Password must be at least 8 characters"
  {
  }

  /** The message registration validation gives, written out in order of
      precedence; `RegisterValidation` proves it is what `validation`
      computes from validate.js's errors. */
  function RegisterMessage(data: Credentials, emails: seq<string>): Option<string> {
    if data.email.None? then Some("Email can't be blank")
    else if data.email.value in emails then Some("Email '" + Displayed(emails, data.email.value) + "' is already used")
    else if data.password.None? then Some("Password can't be blank")
    else if Utf16Length(data.password.value) < 8 then Some("Password must be at least 8 characters")
    else None
  }

  /** What registration validation decides, in order of precedence: a
      missing email, an email already in the snapshot, a missing password,
      a password shorter than 8 UTF-16 code units; otherwise nothing. */
  lemma {:induction false} RegisterValidation(data: Credentials, emails: seq<string>)
    ensures var v := Validation(Validate(data, RegisterRule(emails)));
      v == RegisterMessage(data, emails) &&
      (Rejects(v) <==> v.Some?) &&
      (data.email.None? ==>
         v == Some("Email can't be blank")) &&
      (data.email.Some? && data.email.value in emails ==>
         v == Some("Email '" + Displayed(emails, data.email.value) + "' is already used")) &&
      (data.email.Some? && data.email.value !in emails && data.password.None? ==>
         v == Some("Password can't be blank")) &&
      (data.email.Some? && data.email.value !in emails && data.password.Some? && Utf16Length(data.password.value) < 8 ==>
         v == Some("Password must be at least 8 characters")) &&
      (v.None? <==>
         data.email.Some? && data.email.value !in emails && data.password.Some? && Utf16Length(data.password.value) >= 8)
  {
    var rule := RegisterRule(emails);
    RegisterEmailErrors(data.email, emails);
    RegisterPasswordErrors(data.password, emails);
    FirstMessage(data, rule);
    var e := FieldErrors("Email", rule.email, data.email);
    var p := FieldErrors("Password", rule.password, data.password);
    if data.email.None? {
      assert e == ["Email can't be blank"];
    } else if data.email.value in emails {
      assert e == ["Email '" + Displayed(emails, data.email.value) + "' is already used"];
    } else if data.password.None? {
      assert e == [] && p == ["Password can't be blank"];
    } else if Utf16Length(data.password.value) < 8 {
      assert e == [] && p == ["Password must be at least 8 characters"];
    } else {
      assert e == [] && p == [];
    }
  }

  /** `validation(data, rule)` for the two attributes a rule declares: the
      first email message if there is one, else the first password message. */
  lemma FirstMessage(data: Credentials, rule: Rule)
    ensures var e, p := FieldErrors("Email", rule.email, data.email), FieldErrors("Password", rule.password, data.password);
      Validation(Validate(data, rule)) == (if e != [] then Some(e[0]) else if p != [] then Some(p[0]) else None)
  {
  }

  /** What login validation decides: a missing email, then a missing
      password; any present pair passes. */
  lemma {:induction false} LoginValidation(data: Credentials)
    ensures var v := Validation(Validate(data, LoginRule()));
      (Rejects(v) <==> v.Some?) &&
      (data.email.None? ==> v == Some("Email can't be blank")) &&
      (data.email.Some? && data.password.None? ==> v == Some("Password can't be blank")) &&
      (v.None? <==> data.email.Some? && data.password.Some?)
  {
    FieldErrorsOfOne("Email", Presence, data.email);
    FieldErrorsOfOne("Password", Presence, data.password);
    BlankEmailMessage();
    BlankPasswordMessage();
  }
}
