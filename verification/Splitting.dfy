/** Cutting a sequence at a separator, and joining chunks back together. */
module Splitting {

  /** The pieces between separators; always at least one. */
  function Split<T(==)>(s: seq<T>, sep: T): (pieces: seq<seq<T>>)
    ensures pieces != []
  {
    if s == [] then [[]]
    else
      var rest := Split(s[1..], sep);
      if s[0] == sep then [[]] + rest else [[s[0]] + rest[0]] + rest[1..]
  }

  function Flatten<T>(chunks: seq<seq<T>>): seq<T> {
    if chunks == [] then [] else chunks[0] + Flatten(chunks[1..])
  }

  lemma {:induction false} SplitOfPiece<T>(piece: seq<T>, sep: T)
    requires sep !in piece
    ensures Split(piece, sep) == [piece]
  {
    if piece != [] {
      SplitOfPiece(piece[1..], sep);
      assert [piece[0]] + piece[1..] == piece;
    }
  }

  lemma {:induction false} SplitAtFirst<T>(piece: seq<T>, sep: T, rest: seq<T>)
    requires sep !in piece
    ensures Split(piece + [sep] + rest, sep) == [piece] + Split(rest, sep)
  {
    var s := piece + [sep] + rest;
    if piece == [] {
      assert s[1..] == rest;
    } else {
      SplitAtFirst(piece[1..], sep, rest);
      assert s[1..] == piece[1..] + [sep] + rest;
      assert [piece[0]] + piece[1..] == piece;
    }
  }

  function Unsplit<T>(pieces: seq<seq<T>>, sep: T): seq<T> {
    if pieces == [] then []
    else if |pieces| == 1 then pieces[0]
    else pieces[0] + [sep] + Unsplit(pieces[1..], sep)
  }

  lemma UnsplitCons<T>(piece: seq<T>, rest: seq<seq<T>>, x: T, sep: T)
    requires rest != []
    ensures Unsplit([piece] + rest, sep) == piece + [sep] + Unsplit(rest, sep)
    ensures Unsplit([[x] + rest[0]] + rest[1..], sep) == [x] + Unsplit(rest, sep)
  {
    assert ([piece] + rest)[1..] == rest;
    var pieces := [[x] + rest[0]] + rest[1..];
    assert pieces[1..] == rest[1..];
    if |rest| > 1 {
      assert [x] + rest[0] + [sep] + Unsplit(rest[1..], sep) == [x] + (rest[0] + [sep] + Unsplit(rest[1..], sep));
    }
  }

  /** Putting the separators back restores what was cut. */
  lemma {:induction false} UnsplitOfSplit<T>(s: seq<T>, sep: T)
    ensures Unsplit(Split(s, sep), sep) == s
  {
    if s != [] {
      UnsplitOfSplit(s[1..], sep);
      UnsplitCons([], Split(s[1..], sep), s[0], sep);
      assert s == [s[0]] + s[1..];
    }
  }

  lemma FlattenCons<T>(chunk: seq<T>, rest: seq<seq<T>>)
    ensures Flatten([chunk] + rest) == chunk + Flatten(rest)
  {
    assert ([chunk] + rest)[1..] == rest;
  }
}
