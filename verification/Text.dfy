/** Splitting strings at a separator, as paths and record payloads do. */
module Text {

  /** The fields of `s` between separators: always at least one. */
  function Split(s: string, sep: char): (fields: seq<string>)
    ensures |fields| >= 1
  {
    if s == [] then [""]
    else
      var rest := Split(s[1..], sep);
      if s[0] == sep then [""] + rest else [[s[0]] + rest[0]] + rest[1..]
  }

  function Join(fields: seq<string>, sep: char): string
    requires fields != []
  {
    if |fields| == 1 then fields[0] else fields[0] + [sep] + Join(fields[1..], sep)
  }

  lemma {:induction false} SplitField(field: string, rest: string, sep: char)
    requires sep !in field
    ensures Split(field, sep) == [field]
    ensures Split(field + [sep] + rest, sep) == [field] + Split(rest, sep)
  {
    var s := field + [sep] + rest;
    if field == [] {
      assert s == [sep] + rest && s[1..] == rest;
    } else {
      SplitField(field[1..], rest, sep);
      assert s[1..] == field[1..] + [sep] + rest;
      assert [field[0]] + field[1..] == field;
    }
  }

  /** Splitting undoes joining fields that do not contain the separator. */
  lemma {:induction false} SplitJoin(fields: seq<string>, sep: char)
    requires fields != [] && forall f | f in fields :: sep !in f
    ensures Split(Join(fields, sep), sep) == fields
  {
    assert fields[0] in fields;
    if |fields| == 1 {
      SplitField(fields[0], "", sep);
    } else {
      SplitField(fields[0], Join(fields[1..], sep), sep);
      SplitJoin(fields[1..], sep);
    }
  }

  /** Joining undoes splitting, and no field holds the separator. */
  lemma {:induction false} JoinSplit(s: string, sep: char)
    ensures Join(Split(s, sep), sep) == s
    ensures forall f | f in Split(s, sep) :: sep !in f
  {
    if s != [] {
      JoinSplit(s[1..], sep);
      var rest := Split(s[1..], sep);
      assert [s[0]] + s[1..] == s;
      assert rest[0] in rest;
      if s[0] != sep && |rest| > 1 {
        assert Split(s, sep)[1..] == rest[1..];
      }
    }
  }
}
