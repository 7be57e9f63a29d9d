/**
 * A worked example of the tag row: the pieces of a concrete tag text, and
 * what survives trimming and dropping.
 */
module TagExamples {
  import opened Strings
  import opened Tags

  /**
   * The text `x, y ,,z`: blank pieces vanish, the rest are trimmed and kept in
   * order, for any three letters that are neither whitespace nor commas.
   */
  lemma NormaliseTagsExample(x: char, y: char, z: char)
    requires !IsSpace(x) && !IsSpace(y) && !IsSpace(z)
    requires x != ',' && y != ',' && z != ','
    ensures NormaliseTags([x, ',', ' ', y, ' ', ',', ',', z]) == [[x], [y], [z]]
  {
    var text := [x, ',', ' ', y, ' ', ',', ',', z];
    calc {
      NormaliseTags(text);
      { ExampleSplit(x, y, z); }
      DropEmpty(TrimAll([[x], [' ', y, ' '], [], [z]]));
      { ExampleTrimAll(x, y, z); }
      DropEmpty([[x], [y], [], [z]]);
      { ExampleDrop([x], [y], [z]); }
      [[x], [y], [z]];
    }
  }

  /** The text splits into a bare letter, a padded letter, an empty piece and a bare letter. */
  lemma ExampleSplit(x: char, y: char, z: char)
    requires x != ',' && y != ',' && z != ','
    ensures Split([x, ',', ' ', y, ' ', ',', ',', z], ',') == [[x], [' ', y, ' '], [], [z]]
  {
    var parts := [[x], [' ', y, ' '], [], [z]];
    assert Join(parts[3..], ',') == [z];
    assert Join(parts[2..], ',') == [',', z];
    assert Join(parts[1..], ',') == [' ', y, ' ', ',', ',', z];
    assert Join(parts, ',') == [x, ',', ' ', y, ' ', ',', ',', z];
    SplitJoin(parts, ',');
  }

  /** Trimming a bare letter, a padded letter, an empty piece and another bare letter. */
  lemma ExampleTrimAll(x: char, y: char, z: char)
    requires !IsSpace(x) && !IsSpace(y) && !IsSpace(z)
    ensures TrimAll([[x], [' ', y, ' '], [], [z]]) == [[x], [y], [], [z]]
  {
    TrimAllFour([x], [' ', y, ' '], [], [z]);
    TrimLetter(x);
    TrimPadded(y);
    TrimLetter(z);
    assert Trim([]) == [];
  }

  /** Four pieces are trimmed one by one. */
  lemma TrimAllFour(p0: string, p1: string, p2: string, p3: string)
    ensures TrimAll([p0, p1, p2, p3]) == [Trim(p0), Trim(p1), Trim(p2), Trim(p3)]
  {
    var parts := [p0, p1, p2, p3];
    var r := TrimAll(parts);
    assert r[0] == Trim(parts[0]) && r[1] == Trim(parts[1]) && r[2] == Trim(parts[2]) && r[3] == Trim(parts[3]);
  }

  /** A single non-space character is already trimmed. */
  lemma TrimLetter(c: char)
    requires !IsSpace(c)
    ensures Trim([c]) == [c]
  {
    assert Trimmed([c]);
  }

  /** One space on each side of a non-space character is removed. */
  lemma TrimPadded(c: char)
    requires !IsSpace(c)
    ensures Trim([' ', c, ' ']) == [c]
  {
    var s := [' ', c, ' '];
    assert s[1..] == [c, ' '];
    assert Trim(s) == Trim([c, ' ']) == TrimEnd([c, ' ']);
    assert [c, ' '][..1] == [c];
    assert TrimEnd([c, ' ']) == TrimEnd([c]) == [c];
  }

  /** The one empty piece is dropped from between non-empty ones. */
  lemma ExampleDrop(a: string, b: string, c: string)
    requires a != "" && b != "" && c != ""
    ensures DropEmpty([a, b, [], c]) == [a, b, c]
  {
    assert [a, b, [], c] == [a, b] + ([[]] + [c]);
    DropEmptyAppend([a, b], [[]] + [c]);
    DropEmptyAppend([[]], [c]);
    DropEmptyFixed([a, b]);
    DropEmptyFixed([c]);
    assert DropEmpty([[]]) == [];
  }
}
