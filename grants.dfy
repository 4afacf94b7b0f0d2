/** Rewriting a user's grant rows so that they target another user, and the
    client-side %-formatting that turns the rewritten template into the
    statement the database receives. */
module Grants {
  import opened Outcomes
  import opened Text

  /** Where a grant row's privilege clause ends and its grantee begins. */
  const GrantSeparator: string := " TO "

  const IdentifiedBy: string := " IDENTIFIED BY "

  /** What replaces the grantee: the pending user and password, as
      parameters; it reads " TO %s IDENTIFIED BY %s". */
  const Retarget: string := GrantSeparator + ("%s" + (IdentifiedBy + "%s"))

  /** Python's `s.replace('%', '%%')`. */
  function EscapePercent(s: string): string {
    if s == [] then []
    else (if s[0] == '%' then "%%" else [s[0]]) + EscapePercent(s[1..])
  }

  /** The escaping changes exactly the texts that hold a `%`: text without
      one is left as it is, and text with one grows. */
  lemma {:induction false} EscapeChangesOnlyPercent(s: string)
    ensures (forall i :: 0 <= i < |s| ==> s[i] != '%') ==> EscapePercent(s) == s
    ensures (exists i :: 0 <= i < |s| && s[i] == '%') ==> |EscapePercent(s)| > |s|
    decreases |s|
  {
    if s != [] {
      EscapeChangesOnlyPercent(s[1..]);
      assert forall i :: 1 <= i < |s| ==> s[i] == s[1..][i - 1];
    }
  }

  function Prepend(p: string, r: Option<string>): Option<string> {
    if r.Some? then Some(p + r.value) else None
  }

  lemma PrependTwice(a: string, b: string, r: Option<string>)
    ensures Prepend(a, Prepend(b, r)) == Prepend(a + b, r)
    ensures Prepend([], r) == r
  {
    if r.Some? {
      assert a + (b + r.value) == (a + b) + r.value;
      assert [] + r.value == r.value;
    }
  }

  /** Python's `template % tuple(args)` for the two conversions the handler
      produces, `%%` and `%s`; any other conversion, a missing argument or a
      left-over argument is an error. */
  function Format(t: string, args: seq<string>): Option<string>
    decreases |t|
  {
    if t == [] then (if args == [] then Some([]) else None)
    else if t[0] != '%' then Prepend([t[0]], Format(t[1..], args))
    else if |t| < 2 then None
    else if t[1] == '%' then Prepend("%", Format(t[2..], args))
    else if t[1] == 's' && args != [] then Prepend(args[0], Format(t[2..], args[1..]))
    else None
  }

  /** The privilege clause of a grant row: its text before the first " TO ". */
  function PrivilegeClause(row: string): string {
    BeforeFirst(row, GrantSeparator)
  }

  /** The statement template built from one grant row. */
  function GrantTemplate(row: string): string {
    EscapePercent(PrivilegeClause(row)) + Retarget
  }

  /** Formatting undoes the escaping: escaped text comes out as it went in. */
  lemma {:induction false} FormatEscaped(s: string, rest: string, args: seq<string>)
    ensures Format(EscapePercent(s) + rest, args) == Prepend(s, Format(rest, args))
    decreases |s|
  {
    if s != [] {
      var t := EscapePercent(s) + rest;
      FormatEscaped(s[1..], rest, args);
      var tail := Format(EscapePercent(s[1..]) + rest, args);
      if s[0] == '%' {
        assert t == "%%" + (EscapePercent(s[1..]) + rest);
        assert t[2..] == EscapePercent(s[1..]) + rest;
        assert Format(t, args) == Prepend("%", tail);
      } else {
        assert t == [s[0]] + (EscapePercent(s[1..]) + rest);
        assert t[1..] == EscapePercent(s[1..]) + rest;
        assert Format(t, args) == Prepend([s[0]], tail);
      }
      assert s == [s[0]] + s[1..];
      PrependTwice([s[0]], s[1..], Format(rest, args));
    } else {
      assert EscapePercent(s) + rest == rest;
      PrependTwice([], [], Format(rest, args));
    }
  }

  /** Text without a percent sign passes through formatting unchanged. */
  lemma {:induction false} FormatLiteral(s: string, rest: string, args: seq<string>)
    requires forall i :: 0 <= i < |s| ==> s[i] != '%'
    ensures Format(s + rest, args) == Prepend(s, Format(rest, args))
    decreases |s|
  {
    if s != [] {
      var t := s + rest;
      FormatLiteral(s[1..], rest, args);
      assert t[0] == s[0] != '%';
      assert t[1..] == s[1..] + rest;
      assert Format(t, args) == Prepend([s[0]], Format(s[1..] + rest, args));
      assert s == [s[0]] + s[1..];
      PrependTwice([s[0]], s[1..], Format(rest, args));
    } else {
      assert s + rest == rest;
      PrependTwice([], [], Format(rest, args));
    }
  }

  /** A `%s` conversion consumes the next argument. */
  lemma FormatArgument(rest: string, arg: string, args: seq<string>)
    ensures Format("%s" + rest, [arg] + args) == Prepend(arg, Format(rest, args))
  {
    var t := "%s" + rest;
    assert t[0] == '%' && t[1] == 's' && t[2..] == rest;
    assert ([arg] + args)[1..] == args;
  }

  /** The retargeting suffix formats to the user and the password. */
  lemma RetargetRenders(user: string, password: string)
    ensures Format(Retarget, [user, password]) == Some(GrantSeparator + user + IdentifiedBy + password)
  {
    FormatArgument([], password, []);
    assert "%s" + [] == "%s" && [password] + [] == [password] && password + [] == password;
    FormatLiteral(IdentifiedBy, "%s", [password]);
    FormatArgument(IdentifiedBy + "%s", user, [password]);
    assert [user] + [password] == [user, password];
    assert forall i :: 0 <= i < |GrantSeparator| ==> GrantSeparator[i] != '%';
    FormatLiteral(GrantSeparator, "%s" + (IdentifiedBy + "%s"), [user, password]);
    assert GrantSeparator + (user + (IdentifiedBy + password)) == GrantSeparator + user + IdentifiedBy + password;
  }

  /** The statement sent for a grant row is its privilege clause retargeted
      to the given user, identified by the given password. */
  lemma GrantTemplateRenders(row: string, user: string, password: string)
    ensures Format(GrantTemplate(row), [user, password])
         == Some(PrivilegeClause(row) + GrantSeparator + user + IdentifiedBy + password)
  {
    var clause := PrivilegeClause(row);
    RetargetRenders(user, password);
    FormatEscaped(clause, Retarget, [user, password]);
    assert clause + (GrantSeparator + user + IdentifiedBy + password)
        == clause + GrantSeparator + user + IdentifiedBy + password;
  }

  /** A row of the form `clause TO grantee`, whose clause holds no " TO ",
      becomes `clause TO user IDENTIFIED BY password`. */
  lemma RetargetsGrant(clause: string, grantee: string, user: string, password: string)
    requires forall i :: 0 <= i < |clause| ==> !OccursAt(clause + GrantSeparator + grantee, i, GrantSeparator)
    ensures Format(GrantTemplate(clause + GrantSeparator + grantee), [user, password])
         == Some(clause + GrantSeparator + user + IdentifiedBy + password)
  {
    BeforeFirstOfJoin(clause, GrantSeparator, grantee);
    GrantTemplateRenders(clause + GrantSeparator + grantee, user, password);
  }
}
