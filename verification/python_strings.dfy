/**
 * The two pieces of Python's string semantics that page URLs rely on: keyword-only `str.format`
 * over plain `{name}` fields, and substring containment (`sub in s`).
 */
module PythonStrings {
  import opened Outcomes

  /** The position of the first `c` in `s`, or `|s|` when there is none. */
  function IndexOf(s: string, c: char): (k: nat)
    ensures k <= |s|
    ensures k < |s| ==> s[k] == c
    ensures forall j :: 0 <= j < k ==> s[j] != c
  {
    if s == [] || s[0] == c then 0 else 1 + IndexOf(s[1..], c)
  }

  /** A field name made of decimal digits only, which `format` reads as a positional index. */
  predicate AllDigits(s: string) {
    forall i :: 0 <= i < |s| ==> '0' <= s[i] <= '9'
  }

  /** `prefix` in front of a formatting result; an error passes through. */
  function Prepend(prefix: string, r: Result<string>): Result<string> {
    match r
    case Ok(s) => Ok(prefix + s)
    case Err(e) => Err(e)
  }

  /**
   * `template.format(**args)`, read from left to right: `{{` and `}}` stand for one brace; `{name}`
   * is replaced by `args[name]`. An unmatched brace or a `{` inside a field raises ValueError, an
   * empty or numeric field asks for a positional argument and raises IndexError, and a name that is
   * not a keyword argument raises KeyError. The first error met is the one raised.
   */
  function Format(template: string, args: map<string, string>): (r: Result<string>)
    ensures '{' !in template && '}' !in template ==> r == Ok(template)
    decreases |template|
  {
    if template == [] then Ok([])
    else if template[0] == '{' then
      if |template| > 1 && template[1] == '{' then Prepend("{", Format(template[2..], args))
      else
        var k := IndexOf(template[1..], '}');
        if k == |template| - 1 then Err(ValueError)
        else
          var name := template[1..k + 1];
          if '{' in name then Err(ValueError)
          else if name == [] || AllDigits(name) then Err(IndexError)
          else if name !in args then Err(KeyError(name))
          else Prepend(args[name], Format(template[k + 2..], args))
    else if template[0] == '}' then
      if |template| > 1 && template[1] == '}' then Prepend("}", Format(template[2..], args))
      else Err(ValueError)
    else
      var rest := Format(template[1..], args);
      assert '{' !in template && '}' !in template ==> rest == Ok(template[1..]) by {
        if '{' !in template && '}' !in template {
          assert forall c :: c in template[1..] ==> c in template;
        }
      }
      assert [template[0]] + template[1..] == template;
      Prepend([template[0]], rest)
  }

  /** Two prefixes in a row are one prefix. */
  lemma PrependTwice(a: string, b: string, r: Result<string>)
    ensures Prepend(a, Prepend(b, r)) == Prepend(a + b, r)
  {
    if r.Ok? {
      assert a + (b + r.value) == (a + b) + r.value;
    }
  }

  /** A field name `format` looks up as a keyword as it stands: no index, attribute, conversion or spec. */
  predicate PlainName(name: string) {
    && name != []
    && !AllDigits(name)
    && forall i :: 0 <= i < |name| ==> name[i] !in "{}!:.["
  }

  /** A template read as a sequence of literal text runs and replacement fields. */
  datatype Piece = Text(text: string) | Field(name: string)

  /** Literal text as it must be written in a template: each brace doubled. */
  function Escape(s: string): string {
    if s == [] then []
    else if s[0] in "{}" then [s[0], s[0]] + Escape(s[1..])
    else [s[0]] + Escape(s[1..])
  }

  /** The template text that spells out `pieces`. */
  function Render(pieces: seq<Piece>): string {
    if pieces == [] then []
    else
      match pieces[0]
      case Text(s) => Escape(s) + Render(pieces[1..])
      case Field(n) => "{" + n + "}" + Render(pieces[1..])
  }

  /** Every field of `pieces` is a plain name with a value in `args`. */
  predicate Substitutable(pieces: seq<Piece>, args: map<string, string>) {
    forall i :: 0 <= i < |pieces| && pieces[i].Field? ==> PlainName(pieces[i].name) && pieces[i].name in args
  }

  /** The intended expansion: literal text kept as it is, each field replaced by its value. */
  function Expand(pieces: seq<Piece>, args: map<string, string>): string
    requires Substitutable(pieces, args)
  {
    if pieces == [] then []
    else
      match pieces[0]
      case Text(s) => s + Expand(pieces[1..], args)
      case Field(n) => args[n] + Expand(pieces[1..], args)
  }

  /** Escaped literal text formats back to itself, whatever follows it. */
  lemma {:induction false} FormatEscaped(s: string, rest: string, args: map<string, string>)
    ensures Format(Escape(s) + rest, args) == Prepend(s, Format(rest, args))
    decreases |s|
  {
    if s != [] {
      var tail := Escape(s[1..]) + rest;
      var t := Escape(s) + rest;
      if s[0] in "{}" {
        assert t == [s[0], s[0]] + tail;
        assert t[0] == s[0] && t[1] == s[0] && t[2..] == tail;
        assert [s[0]] == if s[0] == '{' then "{" else "}";
      } else {
        assert t == [s[0]] + tail;
        assert t[0] == s[0] && t[1..] == tail;
      }
      calc {
        Format(t, args);
        Prepend([s[0]], Format(tail, args));
        { FormatEscaped(s[1..], rest, args); }
        Prepend([s[0]], Prepend(s[1..], Format(rest, args)));
        { PrependTwice([s[0]], s[1..], Format(rest, args)); }
        Prepend([s[0]] + s[1..], Format(rest, args));
        { assert [s[0]] + s[1..] == s; }
        Prepend(s, Format(rest, args));
      }
    } else {
      assert Escape(s) + rest == rest;
      var f := Format(rest, args);
      if f.Ok? {
        assert s + f.value == f.value;
      }
    }
  }

  /**
   * A plain `{name}` field is replaced by the keyword argument's value, or raises KeyError naming it
   * when there is no such argument; what follows is formatted on.
   */
  lemma FormatField(name: string, rest: string, args: map<string, string>)
    requires PlainName(name)
    ensures name in args ==> Format("{" + name + "}" + rest, args) == Prepend(args[name], Format(rest, args))
    ensures name !in args ==> Format("{" + name + "}" + rest, args) == Err(KeyError(name))
  {
    var t := "{" + name + "}" + rest;
    assert t[1..] == name + ("}" + rest);
    assert forall j :: 0 <= j < |name| ==> t[1..][j] == name[j];
    var k := IndexOf(t[1..], '}');
    assert t[1..][|name|] == '}';
    assert k == |name|;
    assert t[1..k + 1] == name;
    assert t[k + 2..] == rest;
    assert '{' !in name by {
      forall i | 0 <= i < |name| ensures name[i] != '{' {
        assert name[i] !in "{}!:.[";
      }
    }
  }

  /**
   * Round trip: formatting the rendering of text runs and fields whose names are all supplied
   * gives exactly the intended expansion.
   */
  lemma {:induction false} FormatRender(pieces: seq<Piece>, args: map<string, string>)
    requires Substitutable(pieces, args)
    ensures Format(Render(pieces), args) == Ok(Expand(pieces, args))
    decreases |pieces|
  {
    if pieces != [] {
      assert Substitutable(pieces[1..], args) by {
        forall i | 0 <= i < |pieces[1..]| && pieces[1..][i].Field?
          ensures PlainName(pieces[1..][i].name) && pieces[1..][i].name in args
        {
          assert pieces[1..][i] == pieces[i + 1];
        }
      }
      FormatRender(pieces[1..], args);
      match pieces[0]
      case Text(s) =>
        FormatEscaped(s, Render(pieces[1..]), args);
      case Field(n) =>
        FormatField(n, Render(pieces[1..]), args);
    }
  }

  /** `sub` occurs in `s` starting at position `i`. */
  predicate OccursAt(s: string, sub: string, i: int) {
    0 <= i && i + |sub| <= |s| && s[i..i + |sub|] == sub
  }

  /** Python's `sub in s` on strings, checked position by position. */
  function Contains(s: string, sub: string): (b: bool)
    ensures b <==> exists i :: OccursAt(s, sub, i)
    decreases |s|
  {
    if |sub| <= |s| && s[..|sub|] == sub then
      assert OccursAt(s, sub, 0);
      true
    else if s == [] then
      assert forall i :: !OccursAt(s, sub, i);
      false
    else
      var b := Contains(s[1..], sub);
      forall i | 1 <= i ensures OccursAt(s, sub, i) <==> OccursAt(s[1..], sub, i - 1) {
        if i + |sub| <= |s| {
          assert s[i..i + |sub|] == s[1..][i - 1..i - 1 + |sub|];
        }
      }
      if b then
        var j :| OccursAt(s[1..], sub, j);
        assert OccursAt(s, sub, j + 1);
        true
      else
        false
  }
}
