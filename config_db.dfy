/** The connection-string normalisation done before the document store is
    contacted: the URI is taken from the environment (or a built-in default)
    and every trailing '/' is removed, as `uri.replace(/\/+$/, '')` does. */
module ConfigDb {

  import opened Wrappers

  /** The URI used when the environment provides none. */
  const DefaultUri: string := "mongodb://localhost:27017/Learnex"

  predicate EndsWithSlash(s: string) {
    |s| > 0 && s[|s| - 1] == '/'
  }

  predicate AllSlashes(t: string) {
    forall i :: 0 <= i < |t| ==> t[i] == '/'
  }

  /** Removes the maximal run of '/' at the end of `s` (the regular
      expression `/\/+$/` replaced by the empty string): the result is a
      prefix of `s` that does not end in '/'. */
  function StripTrailingSlashes(s: string): (r: string)
    ensures r <= s
    ensures !EndsWithSlash(r)
    decreases |s|
  {
    if EndsWithSlash(s) then
      var r := StripTrailingSlashes(s[..|s| - 1]);
      assert s[..|s| - 1] <= s;
      r
    else s
  }

  /** `process.env.MONGO_URI || default`, then normalised. JavaScript's `||`
      also falls back on the empty string. */
  function ConnectionUri(env: Option<string>): (uri: string)
    ensures env.Some? && env.value != "" ==> uri == StripTrailingSlashes(env.value)
    ensures env.None? || env.value == "" ==> uri == DefaultUri
  {
    var raw := if env.Some? && env.value != "" then env.value else DefaultUri;
    assert !EndsWithSlash(DefaultUri);
    StripTrailingSlashes(raw)
  }

  /** What is removed is a run of '/' characters and nothing else. */
  lemma {:induction false} StripRemovesOnlySlashes(s: string)
    ensures |StripTrailingSlashes(s)| <= |s|
    ensures s == StripTrailingSlashes(s) + s[|StripTrailingSlashes(s)|..]
    ensures AllSlashes(s[|StripTrailingSlashes(s)|..])
    decreases |s|
  {
    if EndsWithSlash(s) {
      var t := s[..|s| - 1];
      StripRemovesOnlySlashes(t);
      var r := StripTrailingSlashes(t);
      assert s[|r|..] == t[|r|..] + ['/'];
    }
  }

  /** The result is determined by the facts above: whenever `s` splits
      into a part without a trailing '/' and a run of '/', the result is that
      part. */
  lemma {:induction false} StripCharacterisation(s: string, p: string, t: string)
    requires s == p + t
    requires AllSlashes(t)
    requires !EndsWithSlash(p)
    ensures StripTrailingSlashes(s) == p
    decreases |t|
  {
    if t == [] {
      assert s == p;
    } else {
      var t' := t[..|t| - 1];
      assert s[..|s| - 1] == p + t';
      StripCharacterisation(s[..|s| - 1], p, t');
    }
  }

  lemma {:induction false} StripUnchangedWithoutTrailingSlash(s: string)
    requires !EndsWithSlash(s)
    ensures StripTrailingSlashes(s) == s
  {
  }

  lemma {:induction false} StripIdempotent(s: string)
    ensures StripTrailingSlashes(StripTrailingSlashes(s)) == StripTrailingSlashes(s)
  {
  }
}
