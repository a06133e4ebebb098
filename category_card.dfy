/**
 * The icon of a category card (`getCategoryIcon` in
 * src/components/category-card.tsx): the icon of the first keyword, in
 * declaration order, that occurs in the lowercased category name.
 */
module CategoryCard {
  import opened Strings

  datatype Icon =
    | Calculator | BarChart | SearchIcon | DatabaseIcon | TextIcon
    | FilterIcon | Calendar | Clock | CircleDollarSign | FolderKanban

  /** The keyword table, in the order its keys are declared. */
  const ICON_MAP: seq<(string, Icon)> := [
    ("math", Calculator),
    ("trig", Calculator),
    ("statistical", BarChart),
    ("lookup", SearchIcon),
    ("reference", SearchIcon),
    ("database", DatabaseIcon),
    ("text", TextIcon),
    ("logical", FilterIcon),
    ("information", FilterIcon),
    ("date", Calendar),
    ("time", Clock),
    ("financial", CircleDollarSign)
  ]

  /** The icon when no keyword occurs. */
  const DEFAULT_ICON := FolderKanban

  /** The icon of the first entry whose key occurs in `lowered`, else the default. */
  function FirstIcon(entries: seq<(string, Icon)>, lowered: string): Icon {
    if |entries| == 0 then DEFAULT_ICON
    else if Contains(lowered, entries[0].0) then entries[0].1
    else FirstIcon(entries[1..], lowered)
  }

  function CategoryIcon(categoryName: string): Icon {
    FirstIcon(ICON_MAP, Lower(categoryName))
  }

  /** The `for … in` loop over the table with its early return. */
  method GetCategoryIcon(categoryName: string) returns (icon: Icon)
    ensures icon == CategoryIcon(categoryName)
  {
    var lowerCaseName := Lower(categoryName);
    for i := 0 to |ICON_MAP|
      invariant FirstIcon(ICON_MAP[i..], lowerCaseName) == CategoryIcon(categoryName)
    {
      assert ICON_MAP[i..][1..] == ICON_MAP[i + 1..];
      if Contains(lowerCaseName, ICON_MAP[i].0) {
        return ICON_MAP[i].1;
      }
    }
    return DEFAULT_ICON;
  }

  /**
   * The first match wins: the result is the icon of a key that occurs in
   * the name with no earlier key occurring, or the default when no key occurs.
   */
  lemma {:induction false} FirstIconSpec(entries: seq<(string, Icon)>, lowered: string)
    ensures var icon := FirstIcon(entries, lowered);
      || (exists i :: 0 <= i < |entries| && Contains(lowered, entries[i].0) && icon == entries[i].1
            && forall j :: 0 <= j < i ==> !Contains(lowered, entries[j].0))
      || (icon == DEFAULT_ICON && forall j :: 0 <= j < |entries| ==> !Contains(lowered, entries[j].0))
  {
    if |entries| > 0 && !Contains(lowered, entries[0].0) {
      FirstIconSpec(entries[1..], lowered);
      var icon := FirstIcon(entries, lowered);
      if exists i :: 0 <= i < |entries| - 1 && Contains(lowered, entries[1..][i].0) && icon == entries[1..][i].1
          && forall j :: 0 <= j < i ==> !Contains(lowered, entries[1..][j].0) {
        var i :| 0 <= i < |entries| - 1 && Contains(lowered, entries[1..][i].0) && icon == entries[1..][i].1
          && forall j :: 0 <= j < i ==> !Contains(lowered, entries[1..][j].0);
        assert forall j :: 0 <= j < i + 1 ==> !Contains(lowered, entries[j].0) by {
          forall j | 0 <= j < i + 1 ensures !Contains(lowered, entries[j].0) {
            if j > 0 {
              assert entries[j] == entries[1..][j - 1];
            }
          }
        }
        assert Contains(lowered, entries[i + 1].0) && icon == entries[i + 1].1;
      } else {
        forall j | 0 <= j < |entries| ensures !Contains(lowered, entries[j].0) {
          if j > 0 {
            assert entries[j] == entries[1..][j - 1];
          }
        }
      }
    }
  }

  /** Letter case does not matter: names that lowercase alike get the same icon. */
  lemma IconIgnoresCase(a: string, b: string)
    requires Lower(a) == Lower(b)
    ensures CategoryIcon(a) == CategoryIcon(b)
  {
  }

  /** An entry whose key occurs, after entries whose keys do not, decides the icon. */
  lemma {:induction false} FirstIconAt(entries: seq<(string, Icon)>, lowered: string, i: nat)
    requires i < |entries| && Contains(lowered, entries[i].0)
    requires forall j :: 0 <= j < i ==> !Contains(lowered, entries[j].0)
    ensures FirstIcon(entries, lowered) == entries[i].1
    decreases i
  {
    if i > 0 {
      assert !Contains(lowered, entries[0].0);
      FirstIconAt(entries[1..], lowered, i - 1);
    }
  }

  /** `Date & Time` gets the calendar of `date`, declared before `time`. */
  lemma DateBeforeTime()
    ensures CategoryIcon("Date & Time") == Calendar
  {
    var lowered := Lower("Date & Time");
    assert lowered == "date & time";
    assert Contains(lowered, "date") by { assert StartsWith(lowered, "date"); }
    NoMatchBefore(lowered);
    assert ICON_MAP[9] == ("date", Calendar);
    FirstIconAt(ICON_MAP, lowered, 9);
  }

  /** None of the first nine keys occurs in `date & time`: each has a letter the name lacks. */
  lemma NoMatchBefore(lowered: string)
    requires lowered == "date & time"
    ensures forall j :: 0 <= j < 9 ==> !Contains(lowered, ICON_MAP[j].0)
  {
    LettersAbsent(lowered);
    NotContains(lowered, "math", 'h');
    NotContains(lowered, "trig", 'r');
    NotContains(lowered, "statistical", 's');
    NotContains(lowered, "lookup", 'l');
    NotContains(lowered, "reference", 'r');
    NotContains(lowered, "database", 'b');
    NotContains(lowered, "text", 'x');
    NotContains(lowered, "logical", 'l');
    NotContains(lowered, "information", 'f');
  }

  lemma LettersAbsent(lowered: string)
    requires lowered == "date & time"
    ensures 'h' !in lowered && 'r' !in lowered && 's' !in lowered && 'l' !in lowered
    ensures 'b' !in lowered && 'x' !in lowered && 'f' !in lowered
  {
  }

  /** Every character of a contained substring occurs in the string. */
  lemma ContainsChars(s: string, sub: string, c: char)
    requires Contains(s, sub) && c in sub
    ensures c in s
  {
    var i := ContainsIndex(s, sub);
    assert c in s[i..i + |sub|];
  }

  /** A key with a character the name lacks does not occur in it. */
  lemma NotContains(s: string, sub: string, c: char)
    requires c in sub && c !in s
    ensures !Contains(s, sub)
  {
    if Contains(s, sub) {
      ContainsChars(s, sub, c);
    }
  }
}
