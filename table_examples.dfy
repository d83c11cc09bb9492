/** The table's documented behaviour on small concrete inputs. */
module TableExamples {
  import opened Common
  import opened JsStrings
  import opened Table

  const A: Row := map["nome" := Str("A")]
  const B: Row := map["nome" := Str("B")]
  const C: Row := map["nome" := Str("C")]

  /** The three names in string order. */
  lemma NamesOrdered()
    ensures Get(A, "nome") == Str("A") && Get(B, "nome") == Str("B") && Get(C, "nome") == Str("C")
    ensures StrLess("A", "B") && StrLess("B", "C") && StrLess("A", "C")
  {
  }

  /** The first two rows, sorted either way. */
  lemma SortFirstTwo()
    ensures SortRows([B, A], "nome", Asc) == [A, B]
    ensures SortRows([B, A], "nome", Desc) == [B, A]
  {
    NamesOrdered();
    assert [B, A][..1] == [B] && [B][..0] == [];
    assert SortRows([B], "nome", Asc) == [B] && SortRows([B], "nome", Desc) == [B];
    assert Insert([B], A, "nome", Asc) == [A, B] by {
      assert Insert([], A, "nome", Asc) == [A];
    }
  }

  /** Sorting B, A, C ascending by `nome` gives A, B, C. */
  lemma SortAscending()
    ensures SortRows([B, A, C], "nome", Asc) == [A, B, C]
  {
    NamesOrdered();
    SortFirstTwo();
    assert [B, A, C][..2] == [B, A];
    assert Insert([A, B], C, "nome", Asc) == [A, B, C];
  }

  /** Sorting B, A, C descending by `nome` gives C, B, A. */
  lemma SortDescending()
    ensures SortRows([B, A, C], "nome", Desc) == [C, B, A]
  {
    NamesOrdered();
    SortFirstTwo();
    assert [B, A, C][..2] == [B, A];
    assert Insert([B, A], C, "nome", Desc) == [C, B, A] by {
      assert Insert([B], C, "nome", Desc) == [C, B] by {
        assert Insert([], C, "nome", Desc) == [C];
      }
    }
  }

  /** Sorting B, A, C by `nome`: one click gives A, B, C, the second click C, B, A. */
  lemma SortByNome()
    ensures Toggle(InitialSort, "nome") == SortConfig(Some("nome"), Asc)
    ensures SortedView([B, A, C], Toggle(InitialSort, "nome")) == [A, B, C]
    ensures Toggle(Toggle(InitialSort, "nome"), "nome") == SortConfig(Some("nome"), Desc)
    ensures SortedView([B, A, C], Toggle(Toggle(InitialSort, "nome"), "nome")) == [C, B, A]
  {
    SortAscending();
    SortDescending();
  }

  /** Two rows with the same `nome` keep their input order in both directions. */
  lemma TiesKeepOrder()
    ensures var first := map["nome" := Str("A"), "id" := Int(1)];
      var second := map["nome" := Str("A"), "id" := Int(2)];
      SortRows([first, second], "nome", Asc) == [first, second] && SortRows([first, second], "nome", Desc) == [first, second]
  {
    var first := map["nome" := Str("A"), "id" := Int(1)];
    var second := map["nome" := Str("A"), "id" := Int(2)];
    assert [first, second][..1] == [first] && [first][..0] == [];
    assert SortRows([first], "nome", Asc) == [first];
    assert SortRows([first], "nome", Desc) == [first];
  }

  /** "mar" occurs in "maria", the lower-cased "Maria". */
  lemma MarInMaria()
    ensures CellMatches(Str("Maria"), "mar")
  {
    assert Lower("mar") == "mar";
    assert Lower("Maria") == "maria";
    assert StartsWith("maria", "mar");
  }

  /** `s` has no 'm', so "mar" occurs nowhere in it. */
  lemma MarAbsent(s: string)
    requires forall i :: 0 <= i < |s| ==> s[i] != 'm'
    ensures !Includes(s, "mar")
  {
    IncludesIff(s, "mar");
    forall i | 0 <= i && i + 3 <= |s| ensures !OccursAt(s, "mar", i) {
      assert s[i..i + 3][0] == s[i] != 'm';
    }
  }

  /** Neither of Carlos's fields contains "mar". */
  lemma MarNotInCarlos()
    ensures !CellMatches(Str("Carlos"), "mar") && !CellMatches(Str("99"), "mar")
  {
    assert Lower("mar") == "mar";
    assert Lower("Carlos") == "carlos";
    assert Lower("99") == "99";
    MarAbsent("carlos");
    MarAbsent("99");
  }

  /** Searching "mar" over `nome` and `matricula`: Maria matches, Carlos does not. */
  lemma SearchMar()
    ensures var maria := map["nome" := Str("Maria"), "matricula" := Str("2023002")];
      var carlos := map["nome" := Str("Carlos"), "matricula" := Str("99")];
      Search([maria, carlos], "mar", true, ["nome", "matricula"]) == [maria]
  {
    var maria := map["nome" := Str("Maria"), "matricula" := Str("2023002")];
    var carlos := map["nome" := Str("Carlos"), "matricula" := Str("99")];
    var keys := ["nome", "matricula"];
    MarInMaria();
    MarNotInCarlos();
    assert Get(maria, "nome") == Str("Maria");
    assert Get(carlos, "nome") == Str("Carlos") && Get(carlos, "matricula") == Str("99");
    assert keys[1..] == ["matricula"] && keys[1..][1..] == [];
    assert RowMatches(maria, keys, "mar");
    assert !RowMatches(carlos, keys, "mar");
    assert [maria, carlos][1..] == [carlos] && [carlos][1..] == [];
  }
}
