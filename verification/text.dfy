/** JavaScript's `String.prototype.split(',')` and `Array.prototype.join(',')`,
    the two string operations the validators rely on. */
module Text {

  const Comma: char := ','

  predicate NoComma(s: string) {
    forall k :: 0 <= k < |s| ==> s[k] != Comma
  }

  /** `s.split(',')`: the maximal comma-free pieces of `s`, in order.  Like
      JavaScript's split it never returns an empty list: `""` splits to `[""]`
      and `","` splits to `["", ""]`. */
  function Split(s: string): (pieces: seq<string>)
    ensures |pieces| >= 1
    ensures forall k :: 0 <= k < |pieces| ==> NoComma(pieces[k])
    decreases |s|
  {
    if |s| == 0 then [""]
    else
      var rest := Split(s[1..]);
      if s[0] == Comma then [""] + rest
      else [[s[0]] + rest[0]] + rest[1..]
  }

  /** `pieces.join(',')`. */
  function Join(pieces: seq<string>): (s: string)
    decreases |pieces|
  {
    if |pieces| == 0 then ""
    else if |pieces| == 1 then pieces[0]
    else pieces[0] + [Comma] + Join(pieces[1..])
  }

  /** Splitting loses nothing: joining the pieces back gives the input. */
  lemma {:induction false} JoinSplit(s: string)
    ensures Join(Split(s)) == s
    decreases |s|
  {
    if |s| > 0 {
      var rest := Split(s[1..]);
      JoinSplit(s[1..]);
      if s[0] == Comma {
        assert Split(s) == [""] + rest;
        assert s == [Comma] + s[1..];
      } else {
        var pieces := Split(s);
        assert pieces == [[s[0]] + rest[0]] + rest[1..];
        if |rest| == 1 {
          assert pieces == [[s[0]] + rest[0]];
        } else {
          assert pieces[1..] == rest[1..];
          assert Join(rest) == rest[0] + [Comma] + Join(rest[1..]);
        }
        assert s == [s[0]] + s[1..];
      }
    }
  }

  /** Joining comma-free pieces and splitting again gives back exactly those
      pieces, so the pieces of a split are determined by the string. */
  lemma {:induction false} SplitJoin(pieces: seq<string>)
    requires |pieces| >= 1
    requires forall k :: 0 <= k < |pieces| ==> NoComma(pieces[k])
    ensures Split(Join(pieces)) == pieces
    decreases |pieces|, |pieces[0]|
  {
    var p := pieces[0];
    if |p| == 0 {
      if |pieces| == 1 {
        assert Join(pieces) == "";
      } else {
        var tail := Join(pieces[1..]);
        assert Join(pieces) == [Comma] + tail;
        assert Join(pieces)[1..] == tail;
        SplitJoin(pieces[1..]);
        assert pieces == [""] + pieces[1..];
      }
    } else {
      var shorter := [p[1..]] + pieces[1..];
      assert shorter[1..] == pieces[1..];
      assert forall k :: 0 <= k < |shorter| ==> NoComma(shorter[k]);
      SplitJoin(shorter);
      var j := Join(pieces);
      if |pieces| == 1 {
        assert j == p;
        assert Join(shorter) == p[1..];
      } else {
        assert j == p + [Comma] + Join(pieces[1..]);
        assert Join(shorter) == p[1..] + [Comma] + Join(pieces[1..]);
      }
      assert j[0] == p[0] && j[0] != Comma;
      assert j[1..] == Join(shorter);
      assert [p[0]] + p[1..] == p;
      assert pieces == [p] + pieces[1..];
    }
  }
}
