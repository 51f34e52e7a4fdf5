/** strings.Split on a one-character separator, and the printing it undoes. */
module GoStrings {

  function Split(s: string, sep: char): (parts: seq<string>)
    ensures parts != []
    ensures forall i :: 0 <= i < |parts| ==> sep !in parts[i]
  {
    if s == "" then [""]
    else
      var rest := Split(s[1..], sep);
      if s[0] == sep then [""] + rest else [[s[0]] + rest[0]] + rest[1..]
  }

  function Join(parts: seq<string>, sep: char): string
    requires parts != []
  {
    if |parts| == 1 then parts[0] else parts[0] + [sep] + Join(parts[1..], sep)
  }

  /** Splitting undoes printing when no part holds the separator. */
  lemma {:induction false} SplitJoin(parts: seq<string>, sep: char)
    requires parts != [] && forall i :: 0 <= i < |parts| ==> sep !in parts[i]
    ensures Split(Join(parts, sep), sep) == parts
    decreases |parts|, |parts[0]|
  {
    var s := Join(parts, sep);
    if parts[0] == "" {
      if |parts| > 1 {
        assert s[1..] == Join(parts[1..], sep);
        SplitJoin(parts[1..], sep);
      }
    } else {
      var shorter := [parts[0][1..]] + parts[1..];
      assert s[0] == parts[0][0] && s[1..] == Join(shorter, sep) by {
        assert shorter[1..] == parts[1..];
        if |parts| > 1 {
          assert (parts[0] + ([sep] + Join(parts[1..], sep)))[1..] == parts[0][1..] + ([sep] + Join(parts[1..], sep));
        }
      }
      SplitJoin(shorter, sep);
      assert shorter[1..] == parts[1..] && [parts[0][0]] + parts[0][1..] == parts[0];
    }
  }

  /** Printing undoes splitting. */
  lemma {:induction false} JoinSplit(s: string, sep: char)
    ensures Join(Split(s, sep), sep) == s
  {
    if s != "" {
      JoinSplit(s[1..], sep);
      var rest := Split(s[1..], sep);
      if s[0] == sep {
        assert ([""] + rest)[1..] == rest;
      } else {
        assert ([[s[0]] + rest[0]] + rest[1..])[1..] == rest[1..];
      }
    }
  }
}
