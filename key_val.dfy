/** src/main.rs: `parse_key_val`, the parser of the command line's
    KEY=value arguments. */
module KeyVal {
  import opened Wrappers
  import opened Strings

  /** The position of the first `c` in `s`, like `str::find` on a char. */
  function FindChar(s: string, c: char): (r: Option<nat>)
    ensures r.None? <==> c !in s
    ensures r.Some? ==> r.value < |s| && s[r.value] == c && c !in s[..r.value]
  {
    if s == [] then None
    else if s[0] == c then Some(0)
    else match FindChar(s[1..], c)
      case None => None
      case Some(i) =>
        assert s[..i + 1] == [s[0]] + s[1..][..i];
        Some(i + 1)
  }

  /** The error message for an argument without `=`. */
  function NoEquals(s: string): string {
    "invalid KEY=value: no `=` found in `" + s + "`"
  }

  /** `parse_key_val`: the text before the first `=` and the text after it. */
  function ParseKeyVal(s: string): (r: Result<(string, string)>)
    ensures r.Err? <==> '=' !in s
    ensures r.Err? ==> r.msg == NoEquals(s)
    ensures r.Ok? ==> '=' !in r.value.0 && r.value.0 + "=" + r.value.1 == s
  {
    match FindChar(s, '=')
    case None => Err(NoEquals(s))
    case Some(pos) =>
      assert s[..pos] + "=" + s[pos + 1..] == s by {
        assert s == s[..pos] + [s[pos]] + s[pos + 1..];
      }
      Ok((s[..pos], s[pos + 1..]))
  }

  /** The first `c` of `head + [c] + tail` is right after a `head` without `c`. */
  lemma {:induction false} FindCharAfter(head: string, c: char, tail: string)
    requires c !in head
    ensures FindChar(head + [c] + tail, c) == Some(|head|)
  {
    if head != [] {
      FindCharAfter(head[1..], c, tail);
      assert (head + [c] + tail)[1..] == head[1..] + [c] + tail;
    }
  }

  /** The key has no `=`, so it is fixed by `s`: any split of `s` at an
      `=` whose left side has no `=` is the one `parse_key_val` gives. */
  lemma SplitIsUnique(key: string, value: string)
    requires '=' !in key
    ensures ParseKeyVal(key + "=" + value) == Ok((key, value))
  {
    var s := key + "=" + value;
    FindCharAfter(key, '=', value);
    assert s[..|key|] == key && s[|key| + 1..] == value;
  }

  /** Examples: the value may hold `=`, the key may be empty, and an
      argument without `=` is refused. */
  lemma Examples()
    ensures ParseKeyVal("a=b=c") == Ok(("a", "b=c"))
    ensures ParseKeyVal("=v") == Ok(("", "v"))
    ensures ParseKeyVal("abc").Err?
  {
    SplitIsUnique("a", "b=c");
    assert "a" + "=" + "b=c" == "a=b=c";
    SplitIsUnique("", "v");
    assert "" + "=" + "v" == "=v";
  }
}
