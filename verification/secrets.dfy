/** Reading the login credentials out of the `.secret` file
    (import_workflows.py:34-63) and the API key out of its file
    (import_workflows.py:66-86). File access is not modelled: each operation
    receives the file's text, or `None` when the file is missing or unreadable. */
module Secrets {
  import opened Wrappers

  const EmailKey := "N8N_ADMIN_EMAIL="
  const PasswordKey := "N8N_ADMIN_PASSWORD="

  /** Python's whitespace class (`\s` in a `str` pattern, and what `str.strip`
      removes). */
  predicate IsSpace(c: char) {
    || ('\t' <= c <= '\r')
    || ('\U{1C}' <= c <= '\U{1F}')
    || c == ' '
    || c == '\U{85}'
    || c == '\U{A0}'
    || c == '\U{1680}'
    || ('\U{2000}' <= c <= '\U{200A}')
    || c == '\U{2028}'
    || c == '\U{2029}'
    || c == '\U{202F}'
    || c == '\U{205F}'
    || c == '\U{3000}'
  }

  /** The longest run of non-whitespace characters starting at `i` (what the
      greedy group `([^\s]+)` captures). */
  function RunFrom(s: string, i: nat): (r: string)
    requires i <= |s|
    ensures i + |r| <= |s| && r == s[i..i + |r|]
    ensures forall k :: 0 <= k < |r| ==> !IsSpace(r[k])
    ensures i + |r| == |s| || IsSpace(s[i + |r|])
    decreases |s| - i
  {
    if i < |s| && !IsSpace(s[i]) then [s[i]] + RunFrom(s, i + 1) else ""
  }

  /** The pattern `key([^\s]+)` matches at position `i`: `key` occurs there
      and is followed by at least one non-whitespace character. */
  predicate MatchesAt(s: string, key: string, i: int) {
    0 <= i && i + |key| < |s| && s[i..i + |key|] == key && !IsSpace(s[i + |key|])
  }

  /** The pattern matches somewhere in `s`. */
  ghost predicate HasMatch(s: string, key: string) {
    exists i :: MatchesAt(s, key, i)
  }

  /** `v` is what `re.search(key + r'([^\s]+)', s).group(1)` returns: the run
      after the leftmost position where the pattern matches. */
  ghost predicate IsFirstValue(s: string, key: string, v: string) {
    exists at :: && MatchesAt(s, key, at)
                 && (forall j :: 0 <= j < at ==> !MatchesAt(s, key, j))
                 && v == RunFrom(s, at + |key|)
  }

  /** `re.search(key + r'([^\s]+)', s)`, returning the captured group. */
  method Search(key: string, s: string) returns (value: Option<string>, ghost at: int)
    ensures value.Some? ==> && MatchesAt(s, key, at)
                            && (forall j :: 0 <= j < at ==> !MatchesAt(s, key, j))
                            && value.value == RunFrom(s, at + |key|)
                            && value.value != ""
    ensures value.None? ==> forall j :: !MatchesAt(s, key, j)
  {
    var i := 0;
    while i < |s|
      invariant 0 <= i <= |s|
      invariant forall j :: 0 <= j < i ==> !MatchesAt(s, key, j)
    {
      if i + |key| < |s| && s[i..i + |key|] == key && !IsSpace(s[i + |key|]) {
        return Some(RunFrom(s, i + |key|)), i;
      }
      i := i + 1;
    }
    return None, -1;
  }

  /** The parsing half of `load_credentials`: both values or neither. Each
      captured value is non-empty, so the truthiness test on the pair reduces to
      both patterns matching. */
  method LoadCredentials(content: Option<string>) returns (email: Option<string>, password: Option<string>)
    ensures email.Some? <==> password.Some?
    ensures email.Some? <==> content.Some? && HasMatch(content.value, EmailKey) && HasMatch(content.value, PasswordKey)
    ensures email.Some? ==> email.value != "" && IsFirstValue(content.value, EmailKey, email.value)
    ensures password.Some? ==> password.value != "" && IsFirstValue(content.value, PasswordKey, password.value)
  {
    if content.None? {
      return None, None;
    }
    var e, ea := Search(EmailKey, content.value);
    var p, pa := Search(PasswordKey, content.value);
    if e.Some? && p.Some? {
      return e, p;
    }
    return None, None;
  }

  /** `s` with leading whitespace removed. */
  function TrimStart(s: string): (r: string)
    ensures |r| <= |s| && r == s[|s| - |r|..]
    ensures r == "" || !IsSpace(r[0])
    ensures forall k :: 0 <= k < |s| - |r| ==> IsSpace(s[k])
  {
    if s != "" && IsSpace(s[0]) then TrimStart(s[1..]) else s
  }

  /** `s` with trailing whitespace removed. */
  function TrimEnd(s: string): (r: string)
    ensures |r| <= |s| && r == s[..|r|]
    ensures r == "" || !IsSpace(r[|r| - 1])
    ensures forall k :: |r| <= k < |s| ==> IsSpace(s[k])
  {
    if s != "" && IsSpace(s[|s| - 1]) then TrimEnd(s[..|s| - 1]) else s
  }

  /** `str.strip()`. */
  function Strip(s: string): (r: string)
    ensures r == "" <==> forall k :: 0 <= k < |s| ==> IsSpace(s[k])
    ensures r != "" ==> !IsSpace(r[0]) && !IsSpace(r[|r| - 1])
  {
    var t := TrimStart(s);
    TrimEnd(t)
  }

  /** `Strip(s)` is the slice `s[i..j]` that drops exactly the whitespace at
      both ends. */
  lemma StripIsSlice(s: string) returns (i: nat, j: nat)
    ensures i <= j <= |s| && Strip(s) == s[i..j]
    ensures forall k :: 0 <= k < i || j <= k < |s| ==> IsSpace(s[k])
    ensures i < j ==> !IsSpace(s[i]) && !IsSpace(s[j - 1])
  {
    var t := TrimStart(s);
    var r := TrimEnd(t);
    i := |s| - |t|;
    j := i + |r|;
    assert t == s[i..];
    assert r == t[..|r|];
    assert r == s[i..j];
    forall k | j <= k < |s|
      ensures IsSpace(s[k])
    {
      assert s[k] == t[k - i];
    }
    if i < j {
      assert r[0] == s[i] && r[|r| - 1] == s[j - 1];
    }
  }

  /** The parsing half of `load_api_key`: the stripped file text, unless it is
      empty. */
  function LoadApiKey(content: Option<string>): (r: Option<string>)
    ensures r.Some? ==> content.Some? && r.value == Strip(content.value) && r.value != ""
    ensures r.None? ==> content.None? || Strip(content.value) == ""
  {
    match content
    case None => None
    case Some(c) =>
      if Strip(c) != "" then Some(Strip(c)) else None
  }
}
