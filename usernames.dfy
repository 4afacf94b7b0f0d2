/** The alternate-identity resolver: the rotation alternates between a base
    database user and its clone, the same name with "_clone" appended. */
module Usernames {
  import opened Outcomes

  const CloneSuffix: string := "_clone"

  /** The longest user name the resolver will produce by appending the suffix. */
  const MaxUsernameLength: nat := 80

  predicate HasCloneSuffix(u: string) {
    |CloneSuffix| <= |u| && u[|u| - |CloneSuffix|..] == CloneSuffix
  }

  /** The alternate user name: a clone name loses its suffix (with no length
      check), any other name gains it, and fails when the result would be
      longer than the limit. */
  function AltUsername(u: string): (r: Result<string>)
    ensures r.Err? <==> !HasCloneSuffix(u) && |u| + |CloneSuffix| > MaxUsernameLength
    ensures r.Err? ==> r.error == UsernameTooLong
    ensures r.Ok? && HasCloneSuffix(u) ==> r.value + CloneSuffix == u
    ensures r.Ok? && !HasCloneSuffix(u) ==> r.value == u + CloneSuffix && |r.value| <= MaxUsernameLength
  {
    if HasCloneSuffix(u) then Ok(u[..|u| - |CloneSuffix|])
    else if |u| + |CloneSuffix| > MaxUsernameLength then Err(UsernameTooLong)
    else Ok(u + CloneSuffix)
  }

  /** A base name short enough to be cloned comes back from its clone. */
  lemma BaseRoundTrip(u: string)
    requires !HasCloneSuffix(u) && |u| + |CloneSuffix| <= MaxUsernameLength
    ensures AltUsername(u) == Ok(u + CloneSuffix)
    ensures HasCloneSuffix(u + CloneSuffix)
    ensures AltUsername(u + CloneSuffix) == Ok(u)
  {
    var c := u + CloneSuffix;
    assert c[|c| - |CloneSuffix|..] == CloneSuffix;
    assert c[..|c| - |CloneSuffix|] == u;
  }

  /** A clone name whose base does not itself end in the suffix, and which is
      within the limit, comes back from its base. */
  lemma CloneRoundTrip(u: string)
    requires HasCloneSuffix(u) && |u| <= MaxUsernameLength
    requires !HasCloneSuffix(u[..|u| - |CloneSuffix|])
    ensures AltUsername(u) == Ok(u[..|u| - |CloneSuffix|])
    ensures AltUsername(u[..|u| - |CloneSuffix|]) == Ok(u)
  {
    var b := u[..|u| - |CloneSuffix|];
    assert b + CloneSuffix == u;
  }

  /** The resolver is not an involution in general: a name with the suffix
      twice loses one suffix per application and never comes back. */
  lemma NotAnInvolution()
    ensures AltUsername("a_clone_clone") == Ok("a_clone")
    ensures AltUsername("a_clone") == Ok("a")
    ensures AltUsername("a") == Ok("a_clone")
  {
    var twice := "a_clone" + CloneSuffix;
    assert twice == "a_clone_clone";
    assert twice[|twice| - |CloneSuffix|..] == CloneSuffix;
    assert twice[..|twice| - |CloneSuffix|] == "a_clone";
    BaseRoundTrip("a");
    assert "a" + CloneSuffix == "a_clone";
  }

  /** The two cases of one rotation cycle: a base user is cloned, and a
      clone is mapped back to its base. */
  lemma AppUserExamples()
    ensures AltUsername("app_user") == Ok("app_user_clone")
    ensures AltUsername("app_user_clone") == Ok("app_user")
  {
    BaseRoundTrip("app_user");
    assert "app_user" + CloneSuffix == "app_user_clone";
  }
}
