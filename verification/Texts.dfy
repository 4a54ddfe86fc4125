/** Splitting a text at a separator, as Python's `split` does. */
module Texts {

  /** Always at least one part. */
  function Split(s: string, sep: char): (parts: seq<string>)
    ensures parts != []
  {
    if s == "" then [""]
    else
      var rest := Split(s[1..], sep);
      if s[0] == sep then [""] + rest else [[s[0]] + rest[0]] + rest[1..]
  }

  function Join(parts: seq<string>, sep: char): string
    requires parts != []
  {
    if |parts| == 1 then parts[0] else parts[0] + [sep] + Join(parts[1..], sep)
  }

  /** A part without separators, then the end or a separator: the part is split off. */
  lemma {:induction false} SplitPlain(token: string, rest: string, sep: char)
    requires sep !in token && (rest == "" || rest[0] == sep)
    ensures Split(token + rest, sep)[0] == token
    ensures Split(token + rest, sep)[1..] == if rest == "" then [] else Split(rest[1..], sep)
    decreases |token|
  {
    if token == "" {
      assert token + rest == rest;
      if rest != "" {
        assert ([""] + Split(rest[1..], sep))[1..] == Split(rest[1..], sep);
      }
    } else {
      assert (token + rest)[1..] == token[1..] + rest;
      assert sep !in token[1..];
      SplitPlain(token[1..], rest, sep);
      var inner := Split(token[1..] + rest, sep);
      assert token == [token[0]] + token[1..];
      assert ([[token[0]] + inner[0]] + inner[1..])[1..] == inner[1..];
    }
  }

  lemma SplitAlone(s: string, sep: char)
    requires sep !in s
    ensures Split(s, sep) == [s]
  {
    SplitPlain(s, "", sep);
    assert s + "" == s;
  }

  /** Splitting meets a separator where it is. */
  lemma {:induction false} SplitConcat(s: string, t: string, sep: char)
    ensures Split(s + [sep] + t, sep) == Split(s, sep) + Split(t, sep)
    decreases |s|
  {
    var whole := s + [sep] + t;
    if s == "" {
      assert whole[1..] == t;
    } else {
      assert whole[1..] == s[1..] + [sep] + t;
      SplitConcat(s[1..], t, sep);
    }
  }

  lemma JoinPush(c: char, parts: seq<string>, sep: char)
    requires parts != []
    ensures Join([[c] + parts[0]] + parts[1..], sep) == [c] + Join(parts, sep)
  {
  }

  lemma {:induction false} JoinSplit(s: string, sep: char)
    ensures Join(Split(s, sep), sep) == s
  {
    if s != "" {
      var rest := Split(s[1..], sep);
      JoinSplit(s[1..], sep);
      if s[0] == sep {
        assert ([""] + rest)[1..] == rest;
        assert "" + [sep] + s[1..] == s;
      } else {
        JoinPush(s[0], rest, sep);
      }
    }
  }
}
