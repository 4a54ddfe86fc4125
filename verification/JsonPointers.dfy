/**
 JSON Pointer resolution over tool arguments, section 3 to 5 of RFC 6901, with the limits the
 argument policy puts on a pointer.
 */
module JsonPointers {
  import opened Common
  import opened Decimals
  import opened Texts

  // ---------------------------------------------------------------------------
  // Token escaping
  // ---------------------------------------------------------------------------

  /** Every tilde is followed by 0 or 1. */
  predicate TildesOk(s: string) {
    forall i :: 0 <= i < |s| && s[i] == '~' ==> i + 1 < |s| && (s[i + 1] == '0' || s[i + 1] == '1')
  }

  /** Python's `replace` of a two-character text by one character, left to right. */
  function Replace(s: string, digit: char, with: char): string {
    if s == "" then ""
    else if s[0] == '~' && |s| > 1 && s[1] == digit then [with] + Replace(s[2..], digit, with)
    else [s[0]] + Replace(s[1..], digit, with)
  }

  /** The two passes of the code: `~1` first, then `~0`. */
  function Decode(token: string): string {
    Replace(Replace(token, '1', '/'), '0', '~')
  }

  /** One left-to-right pass over the escapes. */
  function DecodeOnce(token: string): string {
    if token == "" then ""
    else if token[0] == '~' && |token| > 1 && token[1] == '1' then "/" + DecodeOnce(token[2..])
    else if token[0] == '~' && |token| > 1 && token[1] == '0' then "~" + DecodeOnce(token[2..])
    else [token[0]] + DecodeOnce(token[1..])
  }

  function Escape(key: string): string {
    if key == "" then ""
    else (if key[0] == '~' then "~0" else if key[0] == '/' then "~1" else [key[0]]) + Escape(key[1..])
  }

  lemma TildesOkTail(s: string, n: nat)
    requires TildesOk(s) && n <= |s|
    ensures TildesOk(s[n..])
  {
  }

  /** The order of the two passes is the right one: they equal the single pass. */
  lemma {:induction false} TwoPassesAreOne(token: string)
    requires TildesOk(token)
    ensures Decode(token) == DecodeOnce(token)
    decreases |token|
  {
    if token != "" {
      if token[0] == '~' {
        TildesOkTail(token, 2);
        TwoPassesAreOne(token[2..]);
        var rest := Replace(token[2..], '1', '/');
        if token[1] == '1' {
          assert Replace(token, '1', '/') == "/" + rest;
          assert ("/" + rest)[1..] == rest;
        } else {
          assert token[1..][1..] == token[2..];
          assert Replace(token[1..], '1', '/') == "0" + rest;
          assert Replace(token, '1', '/') == "~" + ("0" + rest);
          assert ("~" + ("0" + rest))[2..] == rest;
        }
      } else {
        TildesOkTail(token, 1);
        TwoPassesAreOne(token[1..]);
        var rest := Replace(token[1..], '1', '/');
        assert Replace(token, '1', '/') == [token[0]] + rest;
        assert ([token[0]] + rest)[1..] == rest;
      }
    }
  }

  lemma {:induction false} EscapeShape(key: string)
    ensures TildesOk(Escape(key)) && '/' !in Escape(key)
  {
    if key != "" {
      EscapeShape(key[1..]);
      var head := if key[0] == '~' then "~0" else if key[0] == '/' then "~1" else [key[0]];
      var tail := Escape(key[1..]);
      forall i | 0 <= i < |head + tail| && (head + tail)[i] == '~'
        ensures i + 1 < |head + tail| && ((head + tail)[i + 1] == '0' || (head + tail)[i + 1] == '1')
      {
        if i >= |head| {
          assert tail[i - |head|] == '~';
        }
      }
    }
  }

  lemma {:induction false} DecodeEscape(key: string)
    ensures DecodeOnce(Escape(key)) == key
  {
    if key != "" {
      DecodeEscape(key[1..]);
      var tail := Escape(key[1..]);
      if key[0] == '~' || key[0] == '/' {
        assert Escape(key)[2..] == tail;
      } else {
        assert Escape(key)[1..] == tail;
      }
    }
  }

  lemma {:induction false} EscapeDecode(token: string)
    requires TildesOk(token) && '/' !in token
    ensures Escape(DecodeOnce(token)) == token
    decreases |token|
  {
    if token != "" {
      var n := if token[0] == '~' then 2 else 1;
      TildesOkTail(token, n);
      assert '/' !in token[n..];
      EscapeDecode(token[n..]);
      if token[0] == '~' {
        EscapedHead(token);
      } else {
        PlainHead(token);
      }
    }
  }

  lemma EscapedHead(token: string)
    requires TildesOk(token) && token != "" && token[0] == '~'
    requires Escape(DecodeOnce(token[2..])) == token[2..]
    ensures Escape(DecodeOnce(token)) == token
  {
    var rest := DecodeOnce(token[2..]);
    var head := if token[1] == '1' then "/" else "~";
    assert DecodeOnce(token) == head + rest && (head + rest)[1..] == rest;
    assert token == token[..2] + token[2..];
  }

  lemma PlainHead(token: string)
    requires token != "" && token[0] != '~' && token[0] != '/'
    requires Escape(DecodeOnce(token[1..])) == token[1..]
    ensures Escape(DecodeOnce(token)) == token
  {
    var rest := DecodeOnce(token[1..]);
    assert DecodeOnce(token) == [token[0]] + rest && ([token[0]] + rest)[1..] == rest;
  }

  // ---------------------------------------------------------------------------
  // Pointers and keys
  // ---------------------------------------------------------------------------

  function DecodeAll(parts: seq<string>): seq<string> {
    if parts == [] then [] else [Decode(parts[0])] + DecodeAll(parts[1..])
  }

  /** The keys a pointer names, outermost first. */
  function Keys(pointer: string): seq<string> {
    if pointer == "" then [] else DecodeAll(Split(pointer, '/')[1..])
  }

  /** The pointer for a list of keys. */
  function Render(keys: seq<string>): string {
    if keys == [] then "" else "/" + Escape(keys[0]) + Render(keys[1..])
  }

  const MAX_POINTER: nat := 512
  const MAX_SLASHES: nat := 32

  function CountSlashes(s: string): nat {
    if s == "" then 0 else (if s[0] == '/' then 1 else 0) + CountSlashes(s[1..])
  }

  /** No control characters. */
  predicate Printable(s: string) {
    forall i :: 0 <= i < |s| ==> s[i] as int >= 32
  }

  /** The pointers a policy rule may carry. */
  predicate Supported(pointer: string) {
    && |pointer| <= MAX_POINTER
    && (pointer == "" || pointer[0] == '/')
    && TildesOk(pointer)
    && CountSlashes(pointer) <= MAX_SLASHES
    && Printable(pointer)
  }

  /** Reading back a rendered pointer gives the keys it was made from. */
  lemma {:induction false} KeysRender(keys: seq<string>)
    ensures Keys(Render(keys)) == keys
  {
    if keys != [] {
      var token, rest := Escape(keys[0]), Render(keys[1..]);
      EscapeShape(keys[0]);
      assert Render(keys) == "/" + (token + rest);
      assert Render(keys)[1..] == token + rest;
      assert ([""] + Split(token + rest, '/'))[1..] == Split(token + rest, '/');
      SplitPlain(token, rest, '/');
      TwoPassesAreOne(token);
      DecodeEscape(keys[0]);
      KeysRender(keys[1..]);
      if rest != "" {
        assert ([""] + Split(rest[1..], '/'))[1..] == Split(rest[1..], '/');
      }
      var parts := Split(token + rest, '/');
      assert parts == [token] + parts[1..];
      assert DecodeAll(parts) == [Decode(token)] + DecodeAll(parts[1..]);
    }
  }

  lemma RenderPush(key: string, keys: seq<string>)
    ensures Render([key] + keys) == "/" + Escape(key) + Render(keys)
  {
  }

  lemma DecodeAllPush(part: string, parts: seq<string>)
    ensures DecodeAll([part] + parts) == [Decode(part)] + DecodeAll(parts)
  {
  }

  lemma EscapeOfDecode(token: string)
    requires TildesOk(token) && '/' !in token
    ensures Escape(Decode(token)) == token
  {
    TwoPassesAreOne(token);
    EscapeDecode(token);
  }

  /** A token followed by more tokens is rendered as the token and then the rest. */
  lemma RenderSplit(token: string, rest: string)
    requires TildesOk(token) && '/' !in token && (rest == "" || rest[0] == '/')
    ensures Render(DecodeAll(Split(token + rest, '/')))
         == "/" + token + (if rest == "" then "" else Render(DecodeAll(Split(rest[1..], '/'))))
  {
    SplitPlain(token, rest, '/');
    EscapeOfDecode(token);
    var parts := Split(token + rest, '/');
    var more := parts[1..];
    assert parts == [token] + more;
    DecodeAllPush(token, more);
    RenderPush(Decode(token), DecodeAll(more));
  }

  /** What follows the first slash is rendered back unchanged. */
  lemma {:induction false} RenderTokens(s: string)
    requires TildesOk(s)
    ensures "/" + s == Render(DecodeAll(Split(s, '/')))
    decreases |s|
  {
    var n := FirstSlash(s);
    var token, rest := s[..n], s[n..];
    assert s == token + rest;
    TildesOkHead(s, n);
    RenderSplit(token, rest);
    if rest == "" {
      assert s == token;
      assert "/" + token + "" == "/" + token;
    } else {
      TildesOkTail(s, n + 1);
      assert rest[1..] == s[n + 1..];
      RenderTokens(rest[1..]);
      assert rest == "/" + rest[1..];
      ConcatAssociative("/", token, rest);
    }
  }

  function FirstSlash(s: string): (n: nat)
    ensures n <= |s| && (forall i :: 0 <= i < n ==> s[i] != '/') && (n < |s| ==> s[n] == '/')
  {
    if s == "" || s[0] == '/' then 0 else 1 + FirstSlash(s[1..])
  }

  lemma TildesOkHead(s: string, n: nat)
    requires TildesOk(s) && n <= |s| && (n < |s| ==> s[n] == '/')
    ensures TildesOk(s[..n])
  {
  }

  lemma RenderKeys(pointer: string)
    requires Supported(pointer)
    ensures Render(Keys(pointer)) == pointer
  {
    if pointer != "" {
      TildesOkTail(pointer, 1);
      RenderTokens(pointer[1..]);
      assert ([""] + Split(pointer[1..], '/'))[1..] == Split(pointer[1..], '/');
      assert pointer == "/" + pointer[1..];
    }
  }

  /** Distinct supported pointers name distinct keys. */
  lemma PointersAreDistinct(p: string, q: string)
    requires Supported(p) && Supported(q) && Keys(p) == Keys(q)
    ensures p == q
  {
    RenderKeys(p);
    RenderKeys(q);
  }

  // ---------------------------------------------------------------------------
  // Which keys have a supported pointer
  // ---------------------------------------------------------------------------

  lemma {:induction false} EscapePrintable(key: string)
    ensures Printable(Escape(key)) <==> Printable(key)
  {
    if key != "" {
      EscapePrintable(key[1..]);
      var head := if key[0] == '~' then "~0" else if key[0] == '/' then "~1" else [key[0]];
      PrintableConcat(head, Escape(key[1..]));
      PrintableConcat([key[0]], key[1..]);
      assert key == [key[0]] + key[1..];
    }
  }

  lemma PrintableConcat(a: string, b: string)
    ensures Printable(a + b) <==> Printable(a) && Printable(b)
  {
    if Printable(a + b) {
      assert forall i :: 0 <= i < |a| ==> (a + b)[i] == a[i];
      forall i | 0 <= i < |b| ensures b[i] as int >= 32 {
        assert (a + b)[|a| + i] == b[i];
      }
    }
  }

  lemma {:induction false} SlashesConcat(a: string, b: string)
    ensures CountSlashes(a + b) == CountSlashes(a) + CountSlashes(b)
  {
    if a == "" {
      assert a + b == b;
    } else {
      assert (a + b)[1..] == a[1..] + b;
      SlashesConcat(a[1..], b);
    }
  }

  lemma {:induction false} NoSlashes(s: string)
    requires '/' !in s
    ensures CountSlashes(s) == 0
  {
    if s != "" {
      assert '/' !in s[1..];
      NoSlashes(s[1..]);
    }
  }

  lemma TildesConcat(a: string, b: string)
    requires TildesOk(a) && TildesOk(b)
    ensures TildesOk(a + b)
  {
  }

  lemma {:induction false} RenderShape(keys: seq<string>)
    ensures TildesOk(Render(keys)) && CountSlashes(Render(keys)) == |keys|
    ensures Printable(Render(keys)) <==> forall i :: 0 <= i < |keys| ==> Printable(keys[i])
  {
    if keys != [] {
      var token, rest := Escape(keys[0]), Render(keys[1..]);
      RenderShape(keys[1..]);
      EscapeShape(keys[0]);
      TokenShape(keys[0], rest);
      EscapePrintable(keys[0]);
      assert Render(keys) == "/" + token + rest;
      assert keys == [keys[0]] + keys[1..];
      assert (forall i :: 0 <= i < |keys| ==> Printable(keys[i]))
        <==> Printable(keys[0]) && (forall i :: 0 <= i < |keys[1..]| ==> Printable(keys[1..][i]));
    }
  }

  lemma TokenShape(key: string, rest: string)
    requires TildesOk(rest)
    ensures TildesOk("/" + Escape(key) + rest)
    ensures CountSlashes("/" + Escape(key) + rest) == 1 + CountSlashes(rest)
    ensures Printable("/" + Escape(key) + rest) <==> Printable(Escape(key)) && Printable(rest)
  {
    var token := Escape(key);
    EscapeShape(key);
    NoSlashes(token);
    SlashesConcat("/", token);
    SlashesConcat("/" + token, rest);
    TildesConcat("/", token);
    TildesConcat("/" + token, rest);
    PrintableConcat("/", token);
    PrintableConcat("/" + token, rest);
  }

  /** The limits cut nothing but length, depth and control characters. */
  lemma SupportedExactly(keys: seq<string>)
    ensures Supported(Render(keys)) <==>
      && |Render(keys)| <= MAX_POINTER
      && |keys| <= MAX_SLASHES
      && forall i :: 0 <= i < |keys| ==> Printable(keys[i])
  {
    RenderShape(keys);
  }

  // ---------------------------------------------------------------------------
  // Resolution
  // ---------------------------------------------------------------------------

  const MAX_INDEX_DIGITS: nat := 8

  /** A step into a value: a member of an object or an element of a list. */
  datatype Step = Member(key: string) | Index(index: nat)

  function Child(value: Json, step: Step): Option<Json> {
    match step
    case Member(key) => if value.Object? && key in value.members then Some(value.members[key]) else None
    case Index(index) => if value.List? && index < |value.items| then Some(value.items[index]) else None
  }

  /** The value at a path, if the value has that path. */
  function ValueAt(value: Json, path: seq<Step>): Option<Json>
    decreases |path|
  {
    if path == [] then Some(value)
    else match Child(value, path[0])
      case None => None
      case Some(inner) => ValueAt(inner, path[1..])
  }

  function StepKey(step: Step): string {
    match step case Member(key) => key case Index(index) => Digits(index)
  }

  function StepKeys(path: seq<Step>): seq<string> {
    if path == [] then [] else [StepKey(path[0])] + StepKeys(path[1..])
  }

  predicate Reachable(step: Step) {
    step.Index? ==> step.index < Pow10(MAX_INDEX_DIGITS)
  }

  /** The step that a key takes in a value, if any. */
  function Entered(value: Json, key: string): Option<Step> {
    match value
    case Object(members) => if key in members then Some(Member(key)) else None
    case List(items) =>
      if Canonical(key) && |key| <= MAX_INDEX_DIGITS && Value(key) < |items| then Some(Index(Value(key)))
      else None
    case _ => None
  }

  /** The path that keys take in a value, if they lead anywhere. */
  function Path(value: Json, keys: seq<string>): Option<seq<Step>>
    decreases |keys|
  {
    if keys == [] then Some([])
    else match Entered(value, keys[0])
      case None => None
      case Some(step) =>
        match Child(value, step)
        case None => None
        case Some(inner) =>
          match Path(inner, keys[1..])
          case None => None
          case Some(rest) => Some([step] + rest)
  }

  /** The value that a pointer selects. */
  function Selected(value: Json, keys: seq<string>): Option<Json> {
    match Path(value, keys)
    case None => None
    case Some(path) => ValueAt(value, path)
  }

  lemma EnteredStep(value: Json, key: string)
    ensures Entered(value, key).Some? ==>
      && StepKey(Entered(value, key).value) == key
      && Reachable(Entered(value, key).value)
      && Child(value, Entered(value, key).value).Some?
  {
    if Entered(value, key).Some? && value.List? {
      ReadDigits(key);
      DigitsLength(Value(key), MAX_INDEX_DIGITS);
    }
  }

  lemma StepEntered(value: Json, step: Step)
    requires Child(value, step).Some?
    ensures Entered(value, StepKey(step)) == if Reachable(step) then Some(step) else None
  {
    if step.Index? {
      DigitsRead(step.index);
      DigitsLength(step.index, MAX_INDEX_DIGITS);
    }
  }

  lemma ValueAtStep(value: Json, step: Step, path: seq<Step>)
    ensures Child(value, step).None? ==> ValueAt(value, [step] + path) == None
    ensures Child(value, step).Some? ==>
      ValueAt(value, [step] + path) == ValueAt(Child(value, step).value, path)
  {
  }

  /** Keys that lead somewhere spell the path they take, and that path is in the value. */
  lemma {:induction false} PathSpelled(value: Json, keys: seq<string>)
    requires Path(value, keys).Some?
    ensures StepKeys(Path(value, keys).value) == keys
    ensures ValueAt(value, Path(value, keys).value).Some?
    ensures forall i :: 0 <= i < |Path(value, keys).value| ==> Reachable(Path(value, keys).value[i])
    decreases |keys|
  {
    if keys != [] {
      EnteredStep(value, keys[0]);
      var step := Entered(value, keys[0]).value;
      var inner := Child(value, step).value;
      PathSpelled(inner, keys[1..]);
      var rest := Path(inner, keys[1..]).value;
      ValueAtStep(value, step, rest);
      assert ([step] + rest)[1..] == rest;
      assert keys == [keys[0]] + keys[1..];
    }
  }

  /** The keys of a path take that path, exactly when no index has more than eight digits. */
  lemma {:induction false} PathTaken(value: Json, path: seq<Step>)
    requires ValueAt(value, path).Some?
    ensures Path(value, StepKeys(path)) ==
      if forall i :: 0 <= i < |path| ==> Reachable(path[i]) then Some(path) else None
    decreases |path|
  {
    if path != [] {
      var step, rest := path[0], path[1..];
      assert path == [step] + rest;
      ValueAtStep(value, step, rest);
      StepEntered(value, step);
      var inner := Child(value, step).value;
      PathTaken(inner, rest);
      assert StepKeys(path)[0] == StepKey(step) && StepKeys(path)[1..] == StepKeys(rest);
      assert forall i :: 0 <= i < |rest| ==> rest[i] == path[i + 1];
      if Reachable(step) && (forall i :: 0 <= i < |rest| ==> Reachable(rest[i])) {
        assert forall i :: 0 <= i < |path| ==> i == 0 || path[i] == rest[i - 1];
      }
    }
  }

  /** Every path of every value: its escaped pointer selects the value at the path. */
  lemma PointerSelectsPath(value: Json, path: seq<Step>)
    requires ValueAt(value, path).Some?
    ensures Selected(value, Keys(Render(StepKeys(path)))) ==
      if forall i :: 0 <= i < |path| ==> Reachable(path[i]) then ValueAt(value, path) else None
  {
    KeysRender(StepKeys(path));
    PathTaken(value, path);
  }

  /** No two supported pointers take the same path in any value. */
  lemma PointersTakeDistinctPaths(value: Json, p: string, q: string)
    requires Supported(p) && Supported(q)
    requires Path(value, Keys(p)).Some? && Path(value, Keys(p)) == Path(value, Keys(q))
    ensures p == q
  {
    PathSpelled(value, Keys(p));
    PathSpelled(value, Keys(q));
    PointersAreDistinct(p, q);
  }
}
