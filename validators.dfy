/** The request-body validator shared by the task and authentication
    handlers, together with the part of Python's `str.strip()` it relies on. */
module Validators {

  /** Python's `str.isspace()` for a single character: the ASCII controls
      TAB..CR, the information separators U+001C..U+001F, the space, and the
      Unicode space and line/paragraph separators. */
  predicate IsSpace(c: char)
  {
    c == ' ' || ('\t' <= c <= '\r') || ('\U{1C}' <= c <= '\U{1F}')
    || c == '\U{85}' || c == '\U{A0}' || c == '\U{1680}'
    || ('\U{2000}' <= c <= '\U{200A}')
    || c == '\U{2028}' || c == '\U{2029}' || c == '\U{202F}'
    || c == '\U{205F}' || c == '\U{3000}'
  }

  /** Every character is whitespace (the empty string included). */
  predicate Blank(s: string)
  {
    forall i | 0 <= i < |s| :: IsSpace(s[i])
  }

  /** `s.lstrip()`: drops the leading whitespace; empty exactly when `s`
      is all whitespace, and otherwise starts with a non-space. */
  function TrimStart(s: string): (r: string)
    ensures r == [] <==> Blank(s)
    ensures r != [] ==> !IsSpace(r[0])
  {
    if s != [] && IsSpace(s[0]) then TrimStart(s[1..]) else s
  }

  /** `s.rstrip()`: drops the trailing whitespace; empty exactly when `s`
      is all whitespace, and otherwise ends with a non-space. */
  function TrimEnd(s: string): (r: string)
    ensures r == [] <==> Blank(s)
    ensures r != [] ==> !IsSpace(r[|r| - 1])
  {
    if s != [] && IsSpace(s[|s| - 1]) then TrimEnd(s[..|s| - 1]) else s
  }

  /** `s.strip()`: empty exactly when `s` is all whitespace, and otherwise
      neither starts nor ends with whitespace. */
  function Strip(s: string): (r: string)
    ensures r == [] <==> Blank(s)
  {
    TrimEnd(TrimStart(s))
  }

  /** `lstrip` removes a whitespace prefix and nothing else. */
  lemma {:induction false} TrimStartShape(s: string)
    ensures exists k | 0 <= k <= |s| :: TrimStart(s) == s[k..] && Blank(s[..k])
  {
    if s != [] && IsSpace(s[0]) {
      TrimStartShape(s[1..]);
      var k :| 0 <= k <= |s[1..]| && TrimStart(s[1..]) == s[1..][k..] && Blank(s[1..][..k]);
      assert s[1..][k..] == s[k + 1..];
      var prefix := s[..k + 1];
      forall i | 0 <= i < |prefix| ensures IsSpace(prefix[i]) {
        if i > 0 {
          assert prefix[i] == s[1..][..k][i - 1];
        }
      }
      assert TrimStart(s) == s[k + 1..] && Blank(s[..k + 1]);
    } else {
      assert TrimStart(s) == s[0..] && Blank(s[..0]);
    }
  }

  /** `rstrip` removes a whitespace suffix and nothing else. */
  lemma {:induction false} TrimEndShape(s: string)
    ensures exists k | 0 <= k <= |s| :: TrimEnd(s) == s[..k] && Blank(s[k..])
  {
    if s != [] && IsSpace(s[|s| - 1]) {
      var init := s[..|s| - 1];
      TrimEndShape(init);
      var k :| 0 <= k <= |init| && TrimEnd(init) == init[..k] && Blank(init[k..]);
      assert init[..k] == s[..k];
      assert s[k..] == init[k..] + [s[|s| - 1]];
      assert TrimEnd(s) == s[..k] && Blank(s[k..]);
    } else {
      assert TrimEnd(s) == s[..|s|] && Blank(s[|s|..]);
    }
  }

  /** `strip` keeps a slice of `s` and removes only whitespace on either side. */
  lemma StripShape(s: string)
    ensures exists a, b | 0 <= a <= b <= |s| :: Strip(s) == s[a..b] && Blank(s[..a]) && Blank(s[b..])
  {
    TrimStartShape(s);
    var a :| 0 <= a <= |s| && TrimStart(s) == s[a..] && Blank(s[..a]);
    TrimEndShape(s[a..]);
    var k :| 0 <= k <= |s[a..]| && TrimEnd(s[a..]) == s[a..][..k] && Blank(s[a..][k..]);
    SuffixSlices(s, a, k);
  }

  lemma SuffixSlices(s: string, a: nat, k: nat)
    requires a + k <= |s|
    ensures s[a..][..k] == s[a..a + k] && s[a..][k..] == s[a + k..]
  {
  }

  /** A required field is present when its key is in the body and its value
      is not empty after stripping. */
  predicate Filled(data: map<string, string>, field: string)
  {
    field in data && !Blank(data[field])
  }

  /** `fields[i]` is the first field, in list order, that is not filled. */
  predicate FirstUnfilled(data: map<string, string>, fields: seq<string>, i: int)
  {
    0 <= i < |fields| && !Filled(data, fields[i])
    && forall j | 0 <= j < i :: Filled(data, fields[j])
  }

  const MissingFieldPrefix := "Missing or empty field: "

  /** `validate_user_input(data, required_fields)`: `(true, "")` when every
      required field is filled, otherwise `false` with a message naming the
      first field that is not. */
  function ValidateUserInput(data: map<string, string>, requiredFields: seq<string>): (r: (bool, string))
    ensures r.0 <==> forall i | 0 <= i < |requiredFields| :: Filled(data, requiredFields[i])
    ensures r.0 ==> r.1 == ""
    ensures !r.0 ==> exists i :: FirstUnfilled(data, requiredFields, i)
                                 && r.1 == MissingFieldPrefix + requiredFields[i]
  {
    if requiredFields == [] then (true, "")
    else
      var field := requiredFields[0];
      if field !in data || Strip(data[field]) == "" then
        assert FirstUnfilled(data, requiredFields, 0);
        (false, MissingFieldPrefix + field)
      else
        var rest := ValidateUserInput(data, requiredFields[1..]);
        assert !rest.0 ==> exists i :: FirstUnfilled(data, requiredFields, i)
                                       && rest.1 == MissingFieldPrefix + requiredFields[i] by {
          if !rest.0 {
            var k :| FirstUnfilled(data, requiredFields[1..], k)
                     && rest.1 == MissingFieldPrefix + requiredFields[1..][k];
            assert FirstUnfilled(data, requiredFields, k + 1);
          }
        }
        rest
  }

  /** Keys of the body that are not required never change the outcome. */
  lemma {:induction false} ValidateIgnoresOtherKeys(d1: map<string, string>, d2: map<string, string>, fields: seq<string>)
    requires forall i | 0 <= i < |fields| :: (fields[i] in d1 <==> fields[i] in d2)
    requires forall i | 0 <= i < |fields| && fields[i] in d1 :: d1[fields[i]] == d2[fields[i]]
    ensures ValidateUserInput(d1, fields) == ValidateUserInput(d2, fields)
  {
    if fields != [] {
      ValidateIgnoresOtherKeys(d1, d2, fields[1..]);
    }
  }

  /** A required field whose value is only whitespace counts as missing. */
  lemma WhitespaceOnlyIsMissing(data: map<string, string>, fields: seq<string>, field: string)
    requires field in fields && field in data && Blank(data[field])
    ensures !ValidateUserInput(data, fields).0
    ensures ValidateUserInput(data, fields).1 != ""
  {
    var i :| 0 <= i < |fields| && fields[i] == field;
    assert !Filled(data, fields[i]);
  }
}
