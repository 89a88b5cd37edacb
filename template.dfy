/**
 * The part of Python's `str.format` used on the camera URL pattern: a call
 * `pattern.format(camera_name=c)` whose only keyword argument is `camera_name`.
 * `{{` and `}}` stand for literal braces, `{camera_name}` is replaced by `c`, and every
 * other use of a brace raises (`ValueError` for an unbalanced brace, `KeyError` or
 * `IndexError` for another field name).
 */
module Template {
  import opened Wrappers

  const FIELD := "camera_name"

  datatype FormatError =
    | UnmatchedOpenBrace
    | UnmatchedCloseBrace
    | UnknownField(name: string)

  predicate NoBraces(s: string)
  {
    '{' !in s && '}' !in s
  }

  /** The position of the first `}` at or after `i`. */
  function FindClose(s: string, i: nat): (r: Option<nat>)
    requires i <= |s|
    ensures r.Some? ==> i <= r.value < |s| && s[r.value] == '}' && '}' !in s[i..r.value]
    ensures r.None? ==> '}' !in s[i..]
    decreases |s| - i
  {
    if i == |s| then None
    else if s[i] == '}' then Some(i)
    else
      var r := FindClose(s, i + 1);
      assert r.Some? ==> s[i..r.value] == [s[i]] + s[i + 1..r.value];
      assert r.None? ==> s[i..] == [s[i]] + s[i + 1..];
      r
  }

  /** `FindClose` finds the first `}`. */
  lemma {:induction false} FirstClose(s: string, i: nat, j: nat)
    requires i <= j < |s| && s[j] == '}' && '}' !in s[i..j]
    ensures FindClose(s, i) == Some(j)
    decreases j - i
  {
    if i < j {
      assert s[i] == s[i..j][0];
      assert s[i + 1..j] == s[i..j][1..];
      FirstClose(s, i + 1, j);
    }
  }

  function Prepend(p: string, r: Result<string, FormatError>): Result<string, FormatError>
  {
    if r.Ok? then Ok(p + r.value) else r
  }

  /** `s.format(camera_name=camera)`. */
  function Format(s: string, camera: string): Result<string, FormatError>
    decreases |s|
  {
    if s == [] then Ok([])
    else if s[0] == '{' then
      if |s| >= 2 && s[1] == '{' then Prepend("{", Format(s[2..], camera))
      else
        match FindClose(s, 1)
        case None => Err(UnmatchedOpenBrace)
        case Some(j) =>
          if s[1..j] == FIELD then Prepend(camera, Format(s[j + 1..], camera))
          else Err(UnknownField(s[1..j]))
    else if s[0] == '}' then
      if |s| >= 2 && s[1] == '}' then Prepend("}", Format(s[2..], camera))
      else Err(UnmatchedCloseBrace)
    else Prepend([s[0]], Format(s[1..], camera))
  }

  /** Text without braces passes through formatting unchanged, whatever follows it. */
  lemma {:induction false} FormatLiteral(lit: string, rest: string, camera: string)
    requires NoBraces(lit)
    ensures Format(lit + rest, camera) == Prepend(lit, Format(rest, camera))
    decreases |lit|
  {
    if lit != [] {
      var s := lit + rest;
      assert s[0] == lit[0] && lit[0] in lit;
      assert s[1..] == lit[1..] + rest;
      assert lit == [lit[0]] + lit[1..];
      assert NoBraces(lit[1..]);
      assert Format(s, camera) == Prepend([lit[0]], Format(lit[1..] + rest, camera));
      FormatLiteral(lit[1..], rest, camera);
      var tail := Format(rest, camera);
      if tail.Ok? {
        assert Prepend(lit[1..], tail) == Ok(lit[1..] + tail.value);
        assert [lit[0]] + (lit[1..] + tail.value) == lit + tail.value;
      }
    } else {
      assert lit + rest == rest;
      var tail := Format(rest, camera);
      if tail.Ok? {
        assert lit + tail.value == tail.value;
      }
    }
  }

  /** A `{camera_name}` field is replaced by the camera name, and formatting goes on after it. */
  lemma FormatField(rest: string, camera: string)
    ensures Format("{" + FIELD + "}" + rest, camera) == Prepend(camera, Format(rest, camera))
  {
    var s := "{" + FIELD + "}" + rest;
    assert s[1] == 'c';
    var j := |FIELD| + 1;
    assert s[1..j] == FIELD;
    FirstClose(s, 1, j);
    assert s[j + 1..] == rest;
  }

  /** A pattern with one `{camera_name}` field between brace-free texts names the camera there. */
  lemma FormatOneField(before: string, after: string, camera: string)
    requires NoBraces(before) && NoBraces(after)
    ensures Format(before + "{" + FIELD + "}" + after, camera) == Ok(before + camera + after)
  {
    var field := "{" + FIELD + "}";
    assert before + "{" + FIELD + "}" + after == before + (field + after);
    FormatLiteral(before, field + after, camera);
    FormatField(after, camera);
    FormatLiteral(after, [], camera);
    assert after + [] == after;
    assert before + (camera + after) == before + camera + after;
  }
}
