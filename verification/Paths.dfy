/** Splitting object keys at slashes, and finding path pieces in them. */
module Paths {
  import opened Sequences

  /** The segments of a key, from its first character and the segments of what follows. */
  function Prepend(c: char, rest: seq<string>): seq<string>
    requires rest != []
  {
    if c == '/' then [""] + rest else [[c] + rest[0]] + rest[1..]
  }

  /** `key.split("/")`. */
  function Split(key: string): (segments: seq<string>)
    ensures segments != []
  {
    if key == "" then [""] else Prepend(key[0], Split(key[1..]))
  }

  /** The segments with slashes between them. */
  function Glue(segments: seq<string>): string
    requires segments != []
  {
    if |segments| == 1 then segments[0] else segments[0] + ("/" + Glue(segments[1..]))
  }

  predicate SlashFree(s: string) { forall i | 0 <= i < |s| :: s[i] != '/' }

  predicate Contains(text: string, piece: string) {
    exists i :: 0 <= i <= |text| && piece <= text[i..]
  }

  lemma ContainsParts(a: string, piece: string, b: string)
    ensures Contains(a + (piece + b), piece)
  {
    var text := a + (piece + b);
    assert text[|a|..] == piece + b;
  }

  lemma {:induction false} SplitSlashFree(s: string)
    requires SlashFree(s)
    ensures Split(s) == [s]
  {
    if s != "" {
      SplitSlashFree(s[1..]);
      assert [s[0]] + s[1..] == s;
    }
  }

  lemma {:induction false} SplitPieces(key: string)
    ensures forall i | 0 <= i < |Split(key)| :: SlashFree(Split(key)[i])
  {
    if key != "" {
      SplitPieces(key[1..]);
    }
  }

  lemma SplitHead(c: char, rest: seq<string>, more: seq<string>)
    requires rest != []
    ensures Prepend(c, rest + more) == Prepend(c, rest) + more
  {
  }

  /** Splitting distributes over a slash. */
  lemma {:induction false} SplitAtSlash(a: string, b: string)
    ensures Split(a + ("/" + b)) == Split(a) + Split(b)
  {
    var key := a + ("/" + b);
    if a == "" {
      assert key[1..] == b;
      assert Split(key) == [""] + Split(b);
    } else {
      SplitAtSlash(a[1..], b);
      assert key[0] == a[0] && key[1..] == a[1..] + ("/" + b);
      SplitHead(a[0], Split(a[1..]), Split(b));
    }
  }

  lemma GlueSplit(key: string)
    ensures Glue(Split(key)) == key
  {
  }

  lemma {:induction false} GlueAppend(a: seq<string>, b: seq<string>)
    requires a != [] && b != []
    ensures Glue(a + b) == Glue(a) + ("/" + Glue(b))
  {
    if |a| == 1 {
      assert (a + b)[1..] == b;
    } else {
      GlueAppend(a[1..], b);
      assert (a + b)[1..] == a[1..] + b;
      Assoc("/", Glue(a[1..]), "/" + Glue(b));
      Assoc(a[0], "/" + Glue(a[1..]), "/" + Glue(b));
    }
  }

  lemma {:induction false} SplitGlue(segments: seq<string>)
    requires segments != [] && forall i | 0 <= i < |segments| :: SlashFree(segments[i])
    ensures Split(Glue(segments)) == segments
  {
    SplitSlashFree(segments[0]);
    if |segments| > 1 {
      SplitGlue(segments[1..]);
      SplitAtSlash(segments[0], Glue(segments[1..]));
      assert segments == [segments[0]] + segments[1..];
    } else {
      assert segments == [segments[0]];
    }
  }

  // ----- what the segments of a key say about the key -----

  lemma PrefixOfKey(key: string, i: nat)
    requires 1 <= i < |Split(key)|
    ensures Glue(Split(key)[..i]) + "/" <= key
  {
    var segments := Split(key);
    GlueSplit(key);
    GlueAppend(segments[..i], segments[i..]);
    assert segments == segments[..i] + segments[i..];
    Assoc(Glue(segments[..i]), "/", Glue(segments[i..]));
  }

  lemma PrefixCut(key: string, p: string)
    requires p + "/" <= key
    ensures 1 <= |Split(p)| < |Split(key)| && Split(key)[..|Split(p)|] == Split(p)
    ensures Glue(Split(key)[..|Split(p)|]) == p
  {
    var rest := key[|p| + 1..];
    assert key == p + "/" + rest;
    Assoc(p, "/", rest);
    SplitAtSlash(p, rest);
    GlueSplit(p);
  }

  /** Segments `i` to `j`, neither first nor last, stand in the key between two slashes. */
  lemma SliceInKey(key: string, i: nat, j: nat)
    requires 1 <= i < j < |Split(key)|
    ensures Contains(key, "/" + Glue(Split(key)[i..j]) + "/")
  {
    var segments := Split(key);
    var a, m, b := segments[..i], segments[i..j], segments[j..];
    GlueSplit(key);
    assert segments == a + (m + b);
    GlueAppend(m, b);
    GlueAppend(a, m + b);
    Assoc("/", Glue(m), "/" + Glue(b));
    Assoc("/" + Glue(m), "/", Glue(b));
    ContainsParts(Glue(a), "/" + Glue(m) + "/", Glue(b));
  }

  lemma ContainedParts(text: string, piece: string) returns (a: string, b: string)
    requires Contains(text, piece)
    ensures text == a + (piece + b)
  {
    var k :| 0 <= k <= |text| && piece <= text[k..];
    a, b := text[..k], text[k..][|piece|..];
    assert text[k..] == piece + b;
  }

  lemma SplitAround(a: string, m: string, b: string)
    ensures Split(a + ("/" + m + "/" + b)) == Split(a) + (Split(m) + Split(b))
  {
    Assoc("/" + m, "/", b);
    Assoc("/", m, "/" + b);
    SplitAtSlash(m, b);
    SplitAtSlash(a, m + ("/" + b));
  }

  lemma SliceOfContained(key: string, m: string) returns (i: nat)
    requires Contains(key, "/" + m + "/")
    ensures 1 <= i && i + |Split(m)| < |Split(key)| && Split(key)[i..i + |Split(m)|] == Split(m)
  {
    var a, b := ContainedParts(key, "/" + m + "/");
    SplitAround(a, m, b);
    i := |Split(a)|;
  }
}
