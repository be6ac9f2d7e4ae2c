/** Strings as the controller uses them: splitting at a separator and Go's byte order. */
module Text {
  import opened ApiServer

  /** `strings.SplitN(s, "/", 2)`: the text before the first slash and, if there is one, the text after it. */
  datatype Split = Split(head: string, tail: Option<string>)

  function SplitAtSlash(s: string): Split {
    if s == "" then Split("", None)
    else if s[0] == '/' then Split("", Some(s[1..]))
    else
      var rest := SplitAtSlash(s[1..]);
      Split([s[0]] + rest.head, rest.tail)
  }

  /** A slash-free head is recovered exactly, whatever follows the slash. */
  lemma {:induction false} SplitJoined(head: string, tail: string)
    requires '/' !in head
    ensures SplitAtSlash(head + "/" + tail) == Split(head, Some(tail))
  {
    var s := head + "/" + tail;
    if head == "" {
      assert s[1..] == tail;
    } else {
      assert s[1..] == head[1..] + "/" + tail;
      SplitJoined(head[1..], tail);
    }
  }

  lemma {:induction false} SplitSlashFree(s: string)
    requires '/' !in s
    ensures SplitAtSlash(s) == Split(s, None)
  {
    if s != "" {
      SplitSlashFree(s[1..]);
    }
  }

  lemma {:induction false} SplitRejoins(s: string)
    requires SplitAtSlash(s).tail.Some?
    ensures s == SplitAtSlash(s).head + "/" + SplitAtSlash(s).tail.value
  {
    if s[0] == '/' {
      assert s == "/" + s[1..];
    } else {
      SplitRejoins(s[1..]);
      var rest := SplitAtSlash(s[1..]);
      assert s == [s[0]] + s[1..];
      assert [s[0]] + (rest.head + "/" + rest.tail.value) == [s[0]] + rest.head + "/" + rest.tail.value;
    }
  }

  /** The text before the first slash is `n` exactly when the string is `n`, or starts with it and a slash. */
  lemma HeadIs(s: string, n: string)
    requires '/' !in n
    ensures SplitAtSlash(s).head == n <==> s == n || n + "/" <= s
  {
    if s == n {
      SplitSlashFree(n);
    } else if n + "/" <= s {
      assert s == n + "/" + s[|n| + 1..];
      SplitJoined(n, s[|n| + 1..]);
    } else {
      SplitIsJoined(s);
    }
  }

  /** Either there was no slash, or joining gives the string back; the head never has one. */
  lemma {:induction false} SplitIsJoined(s: string)
    ensures '/' !in SplitAtSlash(s).head
    ensures s == if SplitAtSlash(s).tail.None? then SplitAtSlash(s).head else SplitAtSlash(s).head + "/" + SplitAtSlash(s).tail.value
  {
    if s != "" && s[0] != '/' {
      SplitIsJoined(s[1..]);
      assert s == [s[0]] + s[1..];
    }
    if SplitAtSlash(s).tail.Some? {
      SplitRejoins(s);
    }
  }

  /** Lexicographic order, the order of `sort.Strings`. */
  predicate Before(a: string, b: string) {
    b != "" && (a == "" || a[0] < b[0] || (a[0] == b[0] && Before(a[1..], b[1..])))
  }

  lemma {:induction false} BeforeIrreflexive(a: string)
    ensures !Before(a, a)
  {
    if a != "" {
      BeforeIrreflexive(a[1..]);
    }
  }

  lemma {:induction false} BeforeTransitive(a: string, b: string, c: string)
    requires Before(a, b) && Before(b, c)
    ensures Before(a, c)
  {
    if a != "" && a[0] == b[0] == c[0] {
      BeforeTransitive(a[1..], b[1..], c[1..]);
    }
  }

  lemma {:induction false} BeforeTotal(a: string, b: string)
    ensures a == b || Before(a, b) || Before(b, a)
  {
    if a != "" && b != "" && a[0] == b[0] {
      BeforeTotal(a[1..], b[1..]);
      assert a == [a[0]] + a[1..] && b == [b[0]] + b[1..];
    }
  }
}
