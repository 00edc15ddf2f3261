/** The username validator attached to `User.username`
    (backend/recipes/validators.py). The regular-expression class `\w` is
    Unicode-aware in Python; the model takes it as the parameter `isWord`, so
    every property below holds whatever `\w` accepts. */
module Validators {
  import opened Common

  datatype UsernameError =
    | ReservedName                           // the literal username `me`
    | InvalidCharacters(chars: set<char>)    // `set(invalid_chars)`, reported in the message

  /** Membership in the class `[\w.@+-]`. */
  predicate Allowed(c: char, isWord: char -> bool)
  {
    isWord(c) || c == '.' || c == '@' || c == '+' || c == '-'
  }

  /** `re.sub(r'[\w.@+-]+', '', s)`: what is left once every run of allowed
      characters is removed, i.e. the disallowed characters in order. */
  function StripAllowed(s: string, isWord: char -> bool): (r: string)
    ensures forall i :: 0 <= i < |r| ==> r[i] in s && !Allowed(r[i], isWord)
    ensures forall i :: 0 <= i < |s| && !Allowed(s[i], isWord) ==> s[i] in r
    decreases |s|
  {
    if s == [] then ""
    else (if Allowed(s[0], isWord) then "" else [s[0]]) + StripAllowed(s[1..], isWord)
  }

  /** `validate_username`: rejects `me` first, then any character outside
      `[\w.@+-]`, reporting the distinct offending characters; otherwise hands
      the username back. */
  function ValidateUsername(username: string, isWord: char -> bool): (r: Result<string, UsernameError>)
    ensures username == "me" ==> r == Failure(ReservedName)
    ensures r.Success? <==> username != "me" && forall i :: 0 <= i < |username| ==> Allowed(username[i], isWord)
    ensures r.Success? ==> r.value == username
    ensures r.Failure? && username != "me" ==>
              r.error == InvalidCharacters(set i | 0 <= i < |username| && !Allowed(username[i], isWord) :: username[i])
    ensures r.Failure? && r.error.InvalidCharacters? ==> r.error.chars != {}
  {
    if username == "me" then Failure(ReservedName)
    else
      var invalidChars := StripAllowed(username, isWord);
      if invalidChars != "" then
        var reported := set c | c in invalidChars;
        assert reported == set i | 0 <= i < |username| && !Allowed(username[i], isWord) :: username[i];
        assert invalidChars[0] in reported;
        Failure(InvalidCharacters(reported))
      else
        Success(username)
  }

  /** The reserved-name check runs first: `me` is refused with that error
      whatever `\w` accepts, never with a character error. */
  lemma MeIsReserved(isWord: char -> bool)
    ensures ValidateUsername("me", isWord) == Failure(ReservedName)
  {
  }

  /** A username with no disallowed character passes, the empty one included. */
  lemma EmptyUsernameAccepted(isWord: char -> bool)
    ensures ValidateUsername("", isWord) == Success("")
  {
  }

  /** With a `\w` that takes letters but not the space, as Python's does,
      `"a b"` is refused and the space is exactly what is reported. */
  lemma SpaceIsReported(isWord: char -> bool)
    requires isWord('a') && isWord('b') && !isWord(' ')
    ensures ValidateUsername("a b", isWord) == Failure(InvalidCharacters({' '}))
  {
    var u := "a b";
    assert u[1] == ' ' && !Allowed(u[1], isWord);
    assert (set i | 0 <= i < |u| && !Allowed(u[i], isWord) :: u[i]) == {' '} by {
      assert forall i :: 0 <= i < |u| && !Allowed(u[i], isWord) ==> i == 1;
    }
  }
}
