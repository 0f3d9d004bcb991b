/** Reading the token out of an `Authorization` header: `header.split(' ')[1]`. */
module AuthHeader {
  import opened Common

  /** `s.split(' ')`: the pieces between single spaces, empty pieces included. */
  function Split(s: string): (parts: seq<string>)
    ensures |parts| >= 1
    decreases |s|
  {
    if s == [] then [""]
    else
      var rest := Split(s[1..]);
      if s[0] == ' ' then [""] + rest
      else [[s[0]] + rest[0]] + rest[1..]
  }

  /** `parts.join(' ')` */
  function Join(parts: seq<string>): string
  {
    if parts == [] then ""
    else if |parts| == 1 then parts[0]
    else parts[0] + " " + Join(parts[1..])
  }

  ghost predicate SpaceFree(parts: seq<string>)
  {
    forall i :: 0 <= i < |parts| ==> ' ' !in parts[i]
  }

  /** The second piece of the header, or nothing (`undefined`) when it has no space. */
  function SecondWord(header: string): Option<string>
  {
    var parts := Split(header);
    if |parts| >= 2 then Some(parts[1]) else None
  }

  /** Joining the pieces with single spaces gives back the header. */
  lemma {:induction false} JoinSplit(s: string)
    ensures Join(Split(s)) == s
    decreases |s|
  {
    if s != [] {
      JoinSplit(s[1..]);
      var rest := Split(s[1..]);
      if s[0] == ' ' {
        assert Split(s) == [""] + rest;
        assert ([""] + rest)[1..] == rest;
        assert s == [' '] + s[1..];
      } else {
        var first := [s[0]] + rest[0];
        assert Split(s) == [first] + rest[1..];
        if |rest| == 1 {
          assert s == [s[0]] + s[1..];
        } else {
          assert ([first] + rest[1..])[1..] == rest[1..];
          assert Join(rest) == rest[0] + " " + Join(rest[1..]);
          assert s == [s[0]] + s[1..];
        }
      }
    }
  }

  /** No piece contains the separator. */
  lemma {:induction false} SplitSpaceFree(s: string)
    ensures SpaceFree(Split(s))
    decreases |s|
  {
    if s != [] {
      SplitSpaceFree(s[1..]);
      var rest := Split(s[1..]);
      if s[0] == ' ' {
        assert Split(s) == [""] + rest;
      } else {
        assert Split(s) == [[s[0]] + rest[0]] + rest[1..];
        assert ' ' !in rest[0];
      }
    }
  }

  lemma {:induction false} SplitWithoutSpace(w: string)
    requires ' ' !in w
    ensures Split(w) == [w]
    decreases |w|
  {
    if w != [] {
      SplitWithoutSpace(w[1..]);
      assert w == [w[0]] + w[1..];
    }
  }

  lemma {:induction false} SplitAtSpace(w: string, rest: string)
    requires ' ' !in w
    ensures Split(w + " " + rest) == [w] + Split(rest)
    decreases |w|
  {
    var s := w + " " + rest;
    if w == [] {
      assert s[1..] == rest;
    } else {
      assert s[1..] == w[1..] + " " + rest;
      SplitAtSpace(w[1..], rest);
      assert w == [w[0]] + w[1..];
    }
  }

  /** Splitting space-free pieces joined by single spaces gives back the pieces. */
  lemma {:induction false} SplitJoin(parts: seq<string>)
    requires |parts| >= 1 && SpaceFree(parts)
    ensures Split(Join(parts)) == parts
    decreases |parts|
  {
    if |parts| == 1 {
      SplitWithoutSpace(parts[0]);
    } else {
      SplitJoin(parts[1..]);
      SplitAtSpace(parts[0], Join(parts[1..]));
      assert parts == [parts[0]] + parts[1..];
    }
  }

  /** A header has a second word exactly when it contains a space. */
  lemma {:induction false} SecondWordNeedsSpace(header: string)
    ensures SecondWord(header).Some? <==> ' ' in header
    decreases |header|
  {
    if header != [] {
      SecondWordNeedsSpace(header[1..]);
      assert header == [header[0]] + header[1..];
      assert ' ' in header <==> header[0] == ' ' || ' ' in header[1..];
    }
  }

  /** Whatever the first word is (`Bearer` or anything else), the second word is
      the token. */
  lemma SecondWordAfterAnyScheme(scheme: string, token: string)
    requires ' ' !in scheme && ' ' !in token
    ensures SecondWord(scheme + " " + token) == Some(token)
  {
    SplitAtSpace(scheme, token);
    SplitWithoutSpace(token);
  }
}
