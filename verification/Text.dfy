/** Joining and splitting text at a separator character, as the idempotency keys
    and the slugs both need it. */
module Text {

  function Join(parts: seq<string>, sep: char): string
  {
    if |parts| == 0 then ""
    else if |parts| == 1 then parts[0]
    else parts[0] + [sep] + Join(parts[1..], sep)
  }

  function Split(s: string, sep: char): (parts: seq<string>)
    ensures |parts| >= 1
  {
    if s == "" then [""]
    else
      var rest := Split(s[1..], sep);
      if s[0] == sep then [""] + rest
      else [[s[0]] + rest[0]] + rest[1..]
  }

  /** Splitting takes the first separator-free field off, whatever follows it. */
  lemma {:induction false} SplitField(field: string, sep: char, rest: string)
    requires sep !in field
    ensures Split(field, sep) == [field]
    ensures Split(field + [sep] + rest, sep) == [field] + Split(rest, sep)
  {
    if field == "" {
      assert ("" + [sep] + rest)[1..] == rest;
    } else {
      SplitField(field[1..], sep, rest);
      var whole := field + [sep] + rest;
      assert whole[1..] == field[1..] + [sep] + rest;
      assert [field[0]] + field[1..] == field;
      assert Split(whole, sep) == [[field[0]] + field[1..]] + Split(rest, sep);
    }
  }

  /** Joining separator-free fields loses nothing. */
  lemma {:induction false} SplitJoin(parts: seq<string>, sep: char)
    requires |parts| >= 1
    requires forall p :: p in parts ==> sep !in p
    ensures Split(Join(parts, sep), sep) == parts
  {
    if |parts| == 1 {
      SplitField(parts[0], sep, "");
    } else {
      SplitField(parts[0], sep, Join(parts[1..], sep));
      SplitJoin(parts[1..], sep);
      assert [parts[0]] + parts[1..] == parts;
    }
  }
}
