/** The JSON text the in-memory store keeps for each user: `json.Marshal` of the
    record, an object with the members Family, Email, Name and Password in that
    order, and the `unmarshal` that reads such text back. */
module UserJson {
  import opened Results
  import opened Domain

  const CouldNotUnmarshal: string := "Could not unmarshal user"

  const FamilyMember: string := "{\"Family\":"
  const EmailMember: string := ",\"Email\":"
  const NameMember: string := ",\"Name\":"
  const PasswordMember: string := ",\"Password\":"

  /** One character inside a JSON string literal: a quote or a backslash is
      preceded by a backslash. */
  function EscapeChar(c: char): (e: string) {
    if c == '"' || c == '\\' then ['\\', c] else [c]
  }

  function Escape(s: string): (e: string) {
    if s == [] then [] else EscapeChar(s[0]) + Escape(s[1..])
  }

  /** A JSON string literal holding `s`. */
  function Quote(s: string): (q: string) {
    ['"'] + Escape(s) + ['"']
  }

  /** `json.Marshal` of a user: text that `Unmarshal` reads back as exactly
      that user. */
  function Marshal(u: User): (m: string)
    ensures Unmarshal(m) == Ok(u)
  {
    var t3 := PasswordMember + Quote(u.password) + "}";
    var t2 := NameMember + Quote(u.name) + t3;
    var t1 := EmailMember + Quote(u.email) + t2;
    ParseQuotedMember(FamilyMember, u.family, t1);
    ParseQuotedMember(EmailMember, u.email, t2);
    ParseQuotedMember(NameMember, u.name, t3);
    ParseQuotedMember(PasswordMember, u.password, "}");
    FamilyMember + Quote(u.family) + t1
  }

  /** Reads the inside of a string literal up to its closing quote: the decoded
      text and what follows the quote, or None when the literal is unterminated
      or holds an escape this codec does not write. */
  function ParseStringBody(t: string): (r: Option<(string, string)>) {
    if t == [] then
      None
    else if t[0] == '"' then
      Some(([], t[1..]))
    else if t[0] == '\\' then
      if |t| >= 2 && (t[1] == '"' || t[1] == '\\') then
        match ParseStringBody(t[2..])
        case None => None
        case Some((s, rest)) => Some(([t[1]] + s, rest))
      else
        None
    else
      match ParseStringBody(t[1..])
      case None => None
      case Some((s, rest)) => Some(([t[0]] + s, rest))
  }

  /** Reads the member name `member` (with its leading brace or comma and its
      colon) and then a string literal. */
  function ParseMember(t: string, member: string): (r: Option<(string, string)>) {
    if member <= t && |t| > |member| && t[|member|] == '"' then
      ParseStringBody(t[|member| + 1..])
    else
      None
  }

  /** `unmarshal`: the user the text encodes, or the error "Could not unmarshal user". */
  function Unmarshal(t: string): (r: Result<User>)
    ensures r.Err? ==> r.error == CouldNotUnmarshal
  {
    match ParseMember(t, FamilyMember)
    case None => Err(CouldNotUnmarshal)
    case Some((family, t1)) =>
      match ParseMember(t1, EmailMember)
      case None => Err(CouldNotUnmarshal)
      case Some((email, t2)) =>
        match ParseMember(t2, NameMember)
        case None => Err(CouldNotUnmarshal)
        case Some((name, t3)) =>
          match ParseMember(t3, PasswordMember)
          case None => Err(CouldNotUnmarshal)
          case Some((password, t4)) =>
            if t4 == "}" then Ok(User(family, email, name, password)) else Err(CouldNotUnmarshal)
  }

  /** The body of an escaped literal reads back as the text, leaving what follows. */
  lemma {:induction false} ParseEscaped(s: string, rest: string)
    ensures ParseStringBody(Escape(s) + ['"'] + rest) == Some((s, rest))
  {
    var t := Escape(s) + ['"'] + rest;
    if s == [] {
      assert t == ['"'] + rest;
      assert t[1..] == rest;
    } else {
      var tail := Escape(s[1..]) + ['"'] + rest;
      ParseEscaped(s[1..], rest);
      assert t == EscapeChar(s[0]) + tail;
      if s[0] == '"' || s[0] == '\\' {
        assert t[2..] == tail;
      } else {
        assert t[1..] == tail;
      }
      assert [s[0]] + s[1..] == s;
    }
  }

  lemma ParseQuotedMember(member: string, s: string, rest: string)
    ensures ParseMember(member + Quote(s) + rest, member) == Some((s, rest))
  {
    var t := member + Quote(s) + rest;
    assert t[..|member|] == member;
    assert t[|member|] == '"';
    assert t[|member| + 1..] == Escape(s) + ['"'] + rest;
    ParseEscaped(s, rest);
  }
}
