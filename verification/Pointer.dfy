/** JSON pointers as the replay reader decodes them, against RFC 6901. */
module Pointers {
  import opened Wrappers
  import opened Texts

  datatype PatchError =
    | UnsupportedOperation | PathNotText | BadPointer | BadIndex | OutOfRange | MissingKey | NotAContainer

  // ---------------------------------------------------------------- the two passes of the program

  /** `s.replace(pattern, put)` for a pattern of two characters. */
  function Replace(s: string, first: char, second: char, put: char): string {
    if |s| < 2 then s
    else if s[0] == first && s[1] == second then [put] + Replace(s[2..], first, second, put)
    else [s[0]] + Replace(s[1..], first, second, put)
  }

  function DecodeToken(token: string): string { Replace(Replace(token, '~', '1', '/'), '~', '0', '~') }

  function DecodeAll(parts: seq<string>): (tokens: seq<string>)
    ensures |tokens| == |parts| && forall i :: 0 <= i < |parts| ==> tokens[i] == DecodeToken(parts[i])
  {
    if parts == [] then [] else [DecodeToken(parts[0])] + DecodeAll(parts[1..])
  }

  function Tokens(path: string): Result<seq<string>, PatchError> {
    if path == "" then Ok([])
    else if path[0] != '/' then Err(BadPointer)
    else Ok(DecodeAll(Split(path[1..], '/')))
  }

  // ---------------------------------------------------------------- RFC 6901

  /** Section 3: an escaped character is `~0` or `~1`, and a token holds no bare `~` or `/`. */
  predicate ValidToken(s: string) {
    if s == "" then true
    else if s[0] == '~' then |s| >= 2 && (s[1] == '0' || s[1] == '1') && ValidToken(s[2..])
    else s[0] != '/' && ValidToken(s[1..])
  }

  /** Section 4, read from left to right in one pass; a `~` that escapes nothing stands for itself. */
  function Unescape(s: string): string {
    if |s| >= 2 && s[0] == '~' && s[1] == '0' then "~" + Unescape(s[2..])
    else if |s| >= 2 && s[0] == '~' && s[1] == '1' then "/" + Unescape(s[2..])
    else if s == "" then ""
    else [s[0]] + Unescape(s[1..])
  }

  function Escape(s: string): string {
    if s == "" then ""
    else (if s[0] == '~' then "~0" else if s[0] == '/' then "~1" else [s[0]]) + Escape(s[1..])
  }

  function EscapeAll(tokens: seq<string>): (parts: seq<string>)
    ensures |parts| == |tokens| && forall i :: 0 <= i < |tokens| ==> parts[i] == Escape(tokens[i])
  {
    if tokens == [] then [] else [Escape(tokens[0])] + EscapeAll(tokens[1..])
  }

  /** The pointer that names a list of tokens. */
  function Pointer(tokens: seq<string>): string {
    if tokens == [] then "" else "/" + Join(EscapeAll(tokens), '/')
  }

  // ---------------------------------------------------------------- proofs

  /** A pass never brings an unescaped `~` next to a `0` that it was not next to. */
  lemma FirstPassHead(s: string)
    requires s != ""
    ensures var once := Replace(s, '~', '1', '/');
            once != "" && (once[0] == s[0] || once[0] == '/')
  {
  }

  /** The two passes agree with the single pass on every token, valid or not. */
  lemma {:induction false} DecodeIsUnescape(s: string)
    ensures DecodeToken(s) == Unescape(s)
    decreases |s|
  {
    if s == "" {
    } else if |s| >= 2 && s[0] == '~' && s[1] == '0' {
      DecodeIsUnescape(s[2..]);
      var rest := Replace(s[2..], '~', '1', '/');
      assert s[1..][1..] == s[2..];
      assert Replace(s[1..], '~', '1', '/') == ['0'] + rest;
      assert Replace(s, '~', '1', '/') == ['~'] + (['0'] + rest);
      assert (['~'] + (['0'] + rest))[2..] == rest;
    } else if |s| >= 2 && s[0] == '~' && s[1] == '1' {
      DecodeIsUnescape(s[2..]);
      var rest := Replace(s[2..], '~', '1', '/');
      assert Replace(s, '~', '1', '/') == ['/'] + rest;
      assert (['/'] + rest)[1..] == rest;
    } else {
      DecodeIsUnescape(s[1..]);
      var rest := Replace(s[1..], '~', '1', '/');
      assert Replace(s, '~', '1', '/') == [s[0]] + rest;
      assert ([s[0]] + rest)[1..] == rest;
      if |s| >= 2 {
        FirstPassHead(s[1..]);
      }
    }
  }

  lemma {:induction false} UnescapeUndoesEscape(s: string)
    ensures ValidToken(Escape(s)) && Free(Escape(s), '/') && Unescape(Escape(s)) == s
  {
    if s == "" {
    } else {
      UnescapeUndoesEscape(s[1..]);
      var rest := Escape(s[1..]);
      if s[0] == '~' || s[0] == '/' {
        assert Escape(s)[2..] == rest;
      } else {
        assert Escape(s)[1..] == rest;
      }
      assert [s[0]] + s[1..] == s;
    }
  }

  lemma {:induction false} EscapeUndoesUnescape(s: string)
    requires ValidToken(s)
    ensures Escape(Unescape(s)) == s
  {
    if s == "" {
    } else if s[0] == '~' {
      EscapeUndoesUnescape(s[2..]);
      assert Unescape(s)[0] == (if s[1] == '0' then '~' else '/') && Unescape(s)[1..] == Unescape(s[2..]);
      assert [s[0], s[1]] + s[2..] == s;
    } else {
      EscapeUndoesUnescape(s[1..]);
      UnescapeHead(s);
      assert Unescape(s)[1..] == Unescape(s[1..]);
      assert [s[0]] + s[1..] == s;
    }
  }

  lemma UnescapeHead(s: string)
    requires ValidToken(s) && s != "" && s[0] != '~'
    ensures Unescape(s)[0] == s[0] && s[0] != '/'
  {
  }

  /** Splitting and decoding the pointer of any list of tokens gives the list back. */
  lemma TokensUndoesPointer(tokens: seq<string>)
    ensures Tokens(Pointer(tokens)) == Ok(tokens)
  {
    if tokens != [] {
      var parts := EscapeAll(tokens);
      forall i | 0 <= i < |tokens|
        ensures Free(parts[i], '/') && DecodeToken(parts[i]) == tokens[i]
      {
        UnescapeUndoesEscape(tokens[i]);
        DecodeIsUnescape(Escape(tokens[i]));
      }
      SplitUndoesJoin(parts, '/');
      assert Pointer(tokens)[1..] == Join(parts, '/');
      assert DecodeAll(parts) == tokens;
    }
  }

  /** A pointer whose every token is validly escaped. */
  predicate ValidPointer(path: string) {
    path == "" || (path[0] == '/' && forall i :: 0 <= i < |Split(path[1..], '/')| ==> ValidToken(Split(path[1..], '/')[i]))
  }

  lemma {:induction false} JoinUndoesSplit(s: string, sep: char)
    ensures Join(Split(s, sep), sep) == s
  {
    if s == "" {
    } else {
      JoinUndoesSplit(s[1..], sep);
      var rest := Split(s[1..], sep);
      if s[0] == sep {
        assert ([""] + rest)[1..] == rest;
        assert [sep] + s[1..] == s;
      } else {
        var parts := [[s[0]] + rest[0]] + rest[1..];
        if |rest| == 1 {
          assert Join(parts, sep) == [s[0]] + rest[0];
        } else {
          assert parts[1..] == rest[1..];
          assert Join(parts, sep) == [s[0]] + (rest[0] + [sep] + Join(rest[1..], sep));
        }
        assert [s[0]] + s[1..] == s;
      }
    }
  }

  /**
   Any path at all: the empty one has no tokens, one that does not begin with a slash is
   refused, and of any other the tokens are the parts between its slashes, each unescaped.
   */
  lemma TokensAreParts(path: string)
    ensures path == "" ==> Tokens(path) == Ok([])
    ensures path != "" && path[0] != '/' ==> Tokens(path) == Err(BadPointer)
    ensures path != "" && path[0] == '/' ==>
              exists parts: seq<string> ::
                && |parts| >= 1 && (forall i :: 0 <= i < |parts| ==> '/' !in parts[i])
                && path == "/" + Join(parts, '/')
                && Tokens(path) == Ok(seq(|parts|, i requires 0 <= i < |parts| => Unescape(parts[i])))
  {
    if path != "" && path[0] == '/' {
      var parts := Split(path[1..], '/');
      JoinUndoesSplit(path[1..], '/');
      assert path == "/" + Join(parts, '/');
      forall i | 0 <= i < |parts|
        ensures '/' !in parts[i] && DecodeToken(parts[i]) == Unescape(parts[i])
      {
        assert Free(parts[i], '/');
        DecodeIsUnescape(parts[i]);
      }
      assert DecodeAll(parts) == seq(|parts|, i requires 0 <= i < |parts| => Unescape(parts[i]));
    }
  }

  /** And the other way round: distinct valid pointers name distinct token lists. */
  lemma PointerUndoesTokens(path: string)
    requires ValidPointer(path)
    ensures Tokens(path).Ok? && Pointer(Tokens(path).value) == path
  {
    if path != "" {
      var parts := Split(path[1..], '/');
      var tokens := Tokens(path).value;
      forall i | 0 <= i < |parts|
        ensures Escape(tokens[i]) == parts[i]
      {
        DecodeIsUnescape(parts[i]);
        EscapeUndoesUnescape(parts[i]);
      }
      assert EscapeAll(tokens) == parts;
      JoinUndoesSplit(path[1..], '/');
    }
  }
}
