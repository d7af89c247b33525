/**
  How the gate and the logout handlers find the bearer token in a request:
  the `token` cookie if it is truthy, otherwise the second space-separated
  field of an `Authorization` header that starts with "Bearer ".
 */
module TokenExtraction {
  import opened Common

  const BearerPrefix: string := "Bearer "

  /** Fields joined back with single spaces: the inverse of `Split`. */
  function Join(fields: seq<string>): string
    requires |fields| >= 1
  {
    if |fields| == 1 then fields[0] else fields[0] + " " + Join(fields[1..])
  }

  /**
    JavaScript `s.split(" ")`: the maximal space-free runs between single
    spaces, empty runs included, so there is always one more field than
    there are spaces.
   */
  function Split(s: string): (r: seq<string>)
    ensures |r| >= 1
    ensures forall i :: 0 <= i < |r| ==> ' ' !in r[i]
    ensures Join(r) == s
  {
    if s == [] then [""]
    else if s[0] == ' ' then
      var rest := Split(s[1..]);
      assert Join([""] + rest) == "" + " " + Join(rest) by {
        assert ([""] + rest)[1..] == rest;
      }
      [""] + rest
    else
      var rest := Split(s[1..]);
      var head := [s[0]] + rest[0];
      assert Join([head] + rest[1..]) == [s[0]] + Join(rest) by {
        if |rest| > 1 {
          assert ([head] + rest[1..])[1..] == rest[1..];
        }
      }
      assert s == [s[0]] + s[1..];
      [head] + rest[1..]
  }

  /** Splitting a space-free word followed by anything extends the first field only. */
  lemma {:induction false} SplitAfterWord(w: string, rest: string)
    requires ' ' !in w
    ensures Split(w + rest) == [w + Split(rest)[0]] + Split(rest)[1..]
  {
    if w != [] {
      assert (w + rest)[0] == w[0] && (w + rest)[1..] == w[1..] + rest;
      SplitAfterWord(w[1..], rest);
      assert [w[0]] + (w[1..] + Split(rest)[0]) == w + Split(rest)[0];
    } else {
      assert w + rest == rest;
      var r := Split(rest);
      assert w + r[0] == r[0];
      assert r == [r[0]] + r[1..];
    }
  }

  /** `Split` is the inverse of `Join` on space-free fields: the split is unique. */
  lemma {:induction false} SplitJoin(fields: seq<string>)
    requires |fields| >= 1
    requires forall i :: 0 <= i < |fields| ==> ' ' !in fields[i]
    ensures Split(Join(fields)) == fields
  {
    if |fields| == 1 {
      SplitAfterWord(fields[0], "");
      assert fields[0] + "" == fields[0];
    } else {
      var tail := fields[1..];
      SplitJoin(tail);
      assert Split(" " + Join(tail)) == [""] + tail by {
        assert (" " + Join(tail))[1..] == Join(tail);
      }
      assert fields[0] + " " + Join(tail) == fields[0] + (" " + Join(tail));
      SplitAfterWord(fields[0], " " + Join(tail));
      assert fields[0] + "" == fields[0];
      assert fields == [fields[0]] + tail;
    }
  }

  predicate StartsWith(s: string, prefix: string)
  {
    |prefix| <= |s| && s[..|prefix|] == prefix
  }

  /**
    The value of `h.startsWith("Bearer ") && h.split(" ")[1]`: `None` when the
    prefix is missing, otherwise the second field, which may be empty.
   */
  function BearerField(h: string): (r: Option<string>)
    ensures r.Some? <==> StartsWith(h, BearerPrefix)
    ensures r.Some? ==> ' ' !in r.value && StartsWith(h[|BearerPrefix|..], r.value)
  {
    if StartsWith(h, BearerPrefix) then
      BearerSplit(h);
      Some(Split(h)[1])
    else None
  }

  /** A space-free word, a space and a rest split into the word and the fields of the rest. */
  lemma SplitAfterSpace(w: string, rest: string)
    requires ' ' !in w
    ensures Split(w + " " + rest) == [w] + Split(rest)
  {
    SplitAfterWord(w, " " + rest);
    assert (" " + rest)[1..] == rest;
    assert Split(" " + rest) == [""] + Split(rest);
    assert w + "" == w;
    assert w + " " + rest == w + (" " + rest);
  }

  /** The first field of a string is one of its prefixes. */
  lemma FirstFieldIsPrefix(s: string)
    ensures StartsWith(s, Split(s)[0])
  {
    var t := Split(s);
    if |t| > 1 {
      assert Join(t) == t[0] + (" " + Join(t[1..]));
    }
  }

  /** A header with the prefix splits into "Bearer" followed by the fields of the rest. */
  lemma BearerSplit(h: string)
    requires StartsWith(h, BearerPrefix)
    ensures |Split(h)| >= 2
    ensures Split(h)[1] == Split(h[|BearerPrefix|..])[0]
    ensures StartsWith(h[|BearerPrefix|..], Split(h)[1])
  {
    var rest := h[|BearerPrefix|..];
    var word := h[..|BearerPrefix| - 1];
    assert ' ' !in word by {
      assert word == "Bearer";
    }
    assert h == word + " " + rest;
    SplitAfterSpace(word, rest);
    FirstFieldIsPrefix(rest);
  }

  /**
    The header yields token `t` exactly when it reads "Bearer " then `t`, with
    `t` running to the next space or the end of the header.
   */
  lemma BearerFieldIs(h: string, t: string)
    ensures BearerField(h) == Some(t) <==>
      exists rest :: h == BearerPrefix + t + rest && ' ' !in t && (rest == "" || rest[0] == ' ')
  {
    if BearerField(h) == Some(t) {
      BearerFieldShape(h, t);
    }
    if exists rest :: h == BearerPrefix + t + rest && ' ' !in t && (rest == "" || rest[0] == ' ') {
      var rest :| h == BearerPrefix + t + rest && ' ' !in t && (rest == "" || rest[0] == ' ');
      ShapeBearerField(h, t, rest);
    }
  }

  /** The field found is followed by a space or the end of the header. */
  lemma BearerFieldShape(h: string, t: string)
    requires BearerField(h) == Some(t)
    ensures var rest := h[|BearerPrefix| + |t|..];
      h == BearerPrefix + t + rest && ' ' !in t && (rest == "" || rest[0] == ' ')
  {
    var rest := h[|BearerPrefix| + |t|..];
    BearerSplit(h);
    var fs := Split(h[|BearerPrefix|..]);
    if |fs| > 1 {
      assert Join(fs) == fs[0] + (" " + Join(fs[1..]));
      assert rest == " " + Join(fs[1..]);
    }
  }

  /** A space-free word after the prefix, followed by a space or the end, is the field found. */
  lemma ShapeBearerField(h: string, t: string, rest: string)
    requires h == BearerPrefix + t + rest && ' ' !in t && (rest == "" || rest[0] == ' ')
    ensures BearerField(h) == Some(t)
  {
    assert h[..|BearerPrefix|] == BearerPrefix;
    assert h[|BearerPrefix|..] == t + rest;
    BearerSplit(h);
    SplitAfterWord(t, rest);
    if rest != "" {
      assert rest == " " + rest[1..];
      assert Split(rest)[0] == "";
    }
    assert t + "" == t;
  }

  /**
    The token of a request, as `req.cookies.token || (authorization &&
    authorization.startsWith("Bearer ") && authorization.split(" ")[1])`
    followed by the `!token` test: `None` for every falsy value (absent
    cookie or header, missing prefix, empty field).
   */
  function ExtractToken(cookie: Option<string>, authorization: Option<string>): (r: Option<Token>)
    ensures r.Some? ==> r.value != ""
    ensures Truthy(cookie) ==> r == cookie
    ensures !Truthy(cookie) && authorization.None? ==> r.None?
    ensures !Truthy(cookie) && r.Some? ==> authorization.Some? && BearerField(authorization.value) == r
    ensures (!Truthy(cookie) && authorization.Some? && BearerField(authorization.value).Some?
             && BearerField(authorization.value).value != "") ==> r == BearerField(authorization.value)
  {
    if Truthy(cookie) then cookie
    else if authorization.None? then None
    else match BearerField(authorization.value)
      case Some(t) => if t != "" then Some(t) else None
      case None => None
  }

  /** A header built as "Bearer " + t from a non-empty space-free token yields that token back. */
  lemma BearerRoundTrip(t: Token)
    requires t != "" && ' ' !in t
    ensures ExtractToken(None, Some(BearerPrefix + t)) == Some(t)
  {
    var h := BearerPrefix + t;
    assert h == BearerPrefix + t + "";
    BearerFieldIs(h, t);
  }

  /** "Bearer a b" yields "a": the token stops at the next space. */
  lemma BearerStopsAtSpace()
    ensures ExtractToken(None, Some("Bearer a b")) == Some("a")
  {
    var h, rest := "Bearer a b", " b";
    assert h == BearerPrefix + "a" + rest && ' ' !in "a" && rest[0] == ' ';
    BearerFieldIs(h, "a");
  }

  /** "Bearer " and "Bearer  a" yield an empty field, which counts as no token. */
  lemma BearerEmptyField()
    ensures ExtractToken(None, Some("Bearer ")) == None
    ensures ExtractToken(None, Some("Bearer  a")) == None
  {
    BearerFieldIs("Bearer ", "");
    assert "Bearer " == BearerPrefix + "" + "";
    BearerFieldIs("Bearer  a", "");
    assert "Bearer  a" == BearerPrefix + "" + " a";
  }

}
