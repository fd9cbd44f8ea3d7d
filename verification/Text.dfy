/** Identifier grammars, trimmed text and the colon-separated permission key. */
module Text {
  import opened Wrappers

  predicate IsDecimal(c: char) {
    '0' <= c <= '9'
  }

  predicate IsLetter(c: char) {
    'a' <= c <= 'z' || 'A' <= c <= 'Z'
  }

  predicate IsIdChar(c: char) {
    IsLetter(c) || IsDecimal(c) || c == '_' || c == '-'
  }

  // Bundle ids and tool names share one grammar.
  predicate IsName(s: string) {
    1 <= |s| <= 64 && IsLetter(s[0]) && forall i :: 0 <= i < |s| ==> IsIdChar(s[i])
  }

  predicate IsDraftId(s: string) {
    1 <= |s| <= 128 && (IsLetter(s[0]) || IsDecimal(s[0])) && forall i :: 0 <= i < |s| ==> IsIdChar(s[i])
  }

  predicate IsDigest(s: string) {
    |s| == 64 && forall i :: 0 <= i < |s| ==> IsDecimal(s[i]) || 'a' <= s[i] <= 'f'
  }

  // The code points str.strip() removes.
  predicate IsSpace(c: char) {
    '\t' <= c <= '\r' || '\U{1c}' <= c <= ' ' || c == '\U{85}' || c == '\U{a0}' || c == '\U{1680}'
    || '\U{2000}' <= c <= '\U{200a}' || c == '\U{2028}' || c == '\U{2029}' || c == '\U{202f}'
    || c == '\U{205f}' || c == '\U{3000}'
  }

  // Non-empty, without surrounding white space and no longer than the limit.
  predicate IsTrimmed(s: string, limit: nat) {
    0 < |s| <= limit && !IsSpace(s[0]) && !IsSpace(s[|s| - 1])
  }

  function Split(s: string, sep: char): (parts: seq<string>)
    ensures |parts| >= 1
  {
    if s == "" then [""]
    else if s[0] == sep then [""] + Split(s[1..], sep)
    else
      var rest := Split(s[1..], sep);
      [[s[0]] + rest[0]] + rest[1..]
  }

  lemma {:induction false} SplitAtFirst(a: string, rest: string, sep: char)
    requires sep !in a
    ensures Split(a, sep) == [a]
    ensures Split(a + [sep] + rest, sep) == [a] + Split(rest, sep)
  {
    var whole := a + [sep] + rest;
    if a == "" {
      assert whole[1..] == rest;
    } else {
      assert a == [a[0]] + a[1..];
      assert whole[1..] == a[1..] + [sep] + rest;
      SplitAtFirst(a[1..], rest, sep);
    }
  }

  function Join(parts: seq<string>, sep: char): string
    requires |parts| >= 1
  {
    if |parts| == 1 then parts[0] else parts[0] + [sep] + Join(parts[1..], sep)
  }

  lemma {:induction false} JoinSplit(s: string, sep: char)
    ensures Join(Split(s, sep), sep) == s
  {
    if s != "" {
      JoinSplit(s[1..], sep);
      var rest := Split(s[1..], sep);
      assert s == [s[0]] + s[1..];
      if s[0] == sep {
        assert ([""] + rest)[1..] == rest;
      } else if |rest| > 1 {
        assert ([[s[0]] + rest[0]] + rest[1..])[1..] == rest[1..];
      }
    }
  }

  datatype PermissionKey = PermissionKey(bundleId: string, digest: string, tool: string)

  function VersionPrefix(bundleId: string, digest: string): string {
    bundleId + ":" + digest + ":"
  }

  function KeyText(k: PermissionKey): string {
    VersionPrefix(k.bundleId, k.digest) + k.tool
  }

  predicate ValidKey(k: PermissionKey) {
    IsName(k.bundleId) && IsDigest(k.digest) && IsName(k.tool)
  }

  function ParseKey(key: string): Option<PermissionKey> {
    var parts := Split(key, ':');
    if |parts| == 3 && ValidKey(PermissionKey(parts[0], parts[1], parts[2])) then
      Some(PermissionKey(parts[0], parts[1], parts[2]))
    else None
  }

  lemma SplitVersionPrefix(b: string, d: string, rest: string)
    requires IsName(b) && IsDigest(d)
    ensures Split(VersionPrefix(b, d) + rest, ':') == [b, d] + Split(rest, ':')
  {
    assert VersionPrefix(b, d) + rest == b + [':'] + (d + [':'] + rest);
    SplitAtFirst(b, d + [':'] + rest, ':');
    SplitAtFirst(d, rest, ':');
  }

  lemma TextParses(k: PermissionKey)
    requires ValidKey(k)
    ensures ParseKey(KeyText(k)) == Some(k)
  {
    SplitVersionPrefix(k.bundleId, k.digest, k.tool);
    SplitAtFirst(k.tool, "", ':');
  }

  lemma ParsedIsText(key: string, k: PermissionKey)
    requires ParseKey(key) == Some(k)
    ensures ValidKey(k) && KeyText(k) == key
  {
    hide IsName, IsDigest;
    JoinSplit(key, ':');
    var parts := Split(key, ':');
    assert parts[1..][1..] == [parts[2]];
    assert Join(parts[1..], ':') == parts[1] + [':'] + Join(parts[1..][1..], ':');
    assert key == parts[0] + [':'] + (parts[1] + [':'] + parts[2]);
    assert key == KeyText(k);
  }

  /** Printing and parsing a permission key are mutually inverse. */
  lemma KeyRoundTrip(key: string, k: PermissionKey)
    ensures ValidKey(k) && KeyText(k) == key <==> ParseKey(key) == Some(k)
  {
    hide ValidKey, KeyText, ParseKey;
    if ValidKey(k) {
      TextParses(k);
    }
    if ParseKey(key) == Some(k) {
      ParsedIsText(key, k);
    }
  }

  /** The textual prefix test selects exactly the keys of that version. */
  lemma PrefixIsVersion(key: string, k: PermissionKey, b: string, d: string)
    requires ParseKey(key) == Some(k) && IsName(b) && IsDigest(d)
    ensures VersionPrefix(b, d) <= key <==> k.bundleId == b && k.digest == d
  {
    KeyRoundTrip(key, k);
    if VersionPrefix(b, d) <= key {
      var rest := key[|VersionPrefix(b, d)|..];
      assert key == VersionPrefix(b, d) + rest;
      SplitVersionPrefix(b, d, rest);
    }
  }
}
