/**
 * The tile-image loader: every file of the tile-graphics directory becomes one entry
 * `table[category][rank]` of a two-level table keyed by suit letter and rank digit.
 * The directory listing is an input sequence of file names, in listing order; an image is
 * an opaque value recording the file it was read from and the downscaling factor.
 */
module TilePngs {
  import opened Wrappers
  import opened Chars

  /** Directory the tile images are read from. */
  const Loc: string := "Resources/Tile_Graphics"

  /** The five categories the table is seeded with: honours, the three suits, face-down backs. */
  const Categories: set<char> := {'z', 'm', 'p', 's', 'b'}

  /** A loaded picture; its pixels are not modelled. */
  datatype Img = Photo(path: string, scale: int)

  /** suit letter -> rank digit -> image */
  type ImgTable = map<char, map<char, Img>>

  /** Why loading a file name fails (IndexError, AttributeError on a failed search, KeyError). */
  datatype LoadError = EmptyName | NoDigit(name: string) | UnknownCategory(cat: char)

  /** The image read from `name` at downscaling factor `scale`. */
  function Image(name: string, scale: int): Img
  {
    Photo(Loc + "/" + name, scale)
  }

  /** `re.search(r'\d', s)`: the leftmost digit of `s`, if any. */
  function SearchDigit(s: string): Option<char>
  {
    if s == [] then None
    else if IsDigit(s[0]) then Some(s[0])
    else SearchDigit(s[1..])
  }

  /** The search finds the leftmost digit, and finds nothing exactly when `s` has no digit. */
  lemma {:induction false} SearchDigitMeaning(s: string)
    ensures SearchDigit(s).Some? ==> exists i :: (0 <= i < |s| && s[i] == SearchDigit(s).value &&
      IsDigit(s[i]) && (forall j :: 0 <= j < i ==> !IsDigit(s[j])))
    ensures SearchDigit(s).None? <==> forall j :: 0 <= j < |s| ==> !IsDigit(s[j])
  {
    if s != [] && !IsDigit(s[0]) {
      var t := s[1..];
      SearchDigitMeaning(t);
      assert forall j :: 0 <= j < |t| ==> t[j] == s[j + 1];
      if SearchDigit(t).Some? {
        var i :| 0 <= i < |t| && t[i] == SearchDigit(t).value && IsDigit(t[i]) &&
          (forall j :: 0 <= j < i ==> !IsDigit(t[j]));
        assert s[i + 1] == SearchDigit(s).value && forall j :: 0 <= j < i + 1 ==> !IsDigit(s[j]);
      }
    }
  }

  /**
   * The key a file name is stored under, before the table is consulted: the category is the
   * lower-cased first character; the rank is '1' for a name starting with an upper-case 'B'
   * (the face-down tile), otherwise the first digit anywhere in the name.
   */
  function FileKey(name: string): (r: Result<(char, char), LoadError>)
  {
    if name == [] then Err(EmptyName)
    else
      var cat := Lower(name[0]);
      var num := if name[0] == 'B' then Some('1') else SearchDigit(name);
      if num.None? then Err(NoDigit(name)) else Ok((cat, num.value))
  }

  /** What `FileKey` means: the three error cases and the key of every other name. */
  lemma FileKeyMeaning(name: string)
    ensures name == [] <==> FileKey(name) == Err(EmptyName)
    ensures FileKey(name).Ok? ==> FileKey(name).value.0 == Lower(name[0])
    ensures FileKey(name).Ok? && name[0] == 'B' ==> FileKey(name).value == ('b', '1')
    ensures FileKey(name).Ok? && name[0] != 'B' ==>
      exists i :: 0 <= i < |name| && name[i] == FileKey(name).value.1 && IsDigit(name[i]) &&
        forall j :: 0 <= j < i ==> !IsDigit(name[j])
    ensures FileKey(name).Err? && name != [] ==>
      name[0] != 'B' && FileKey(name).error == NoDigit(name) &&
      forall j :: 0 <= j < |name| ==> !IsDigit(name[j])
  {
    SearchDigitMeaning(name);
  }

  /** The table before any file is read: the five categories, each empty. */
  function Seeded(): (t: ImgTable)
    ensures t.Keys == Categories
    ensures forall c :: c in t ==> t[c] == map[]
  {
    map['z' := map[], 'm' := map[], 'p' := map[], 's' := map[], 'b' := map[]]
  }

  /** True when `table[c][d]` exists. */
  predicate Has(table: ImgTable, c: char, d: char)
  {
    c in table && d in table[c]
  }

  /**
   * One iteration of the loading loop: compute the key of `name`, then store its image under
   * `table[cat][num]`, which fails when the category is not a key of the table.
   * On success exactly one entry is set; every other entry is kept.
   */
  function AddFile(table: ImgTable, name: string, scale: int): (r: Result<ImgTable, LoadError>)
    ensures r.Ok? ==> r.value.Keys == table.Keys
  {
    match FileKey(name)
    case Err(e) => Err(e)
    case Ok((cat, num)) =>
      if cat !in table then Err(UnknownCategory(cat))
      else Ok(table[cat := table[cat][num := Image(name, scale)]])
  }

  /** Each name either fails (its own error, or the table lacking its category) or sets exactly one entry. */
  lemma AddFileSetsOneEntry(table: ImgTable, name: string, scale: int)
    ensures FileKey(name).Err? ==> AddFile(table, name, scale) == Err(FileKey(name).error)
    ensures FileKey(name).Ok? ==> (AddFile(table, name, scale).Ok? <==> FileKey(name).value.0 in table)
    ensures FileKey(name).Ok? && AddFile(table, name, scale).Err? ==>
      AddFile(table, name, scale).error == UnknownCategory(FileKey(name).value.0)
    ensures AddFile(table, name, scale).Ok? ==>
      var (cat, num) := FileKey(name).value;
      var t := AddFile(table, name, scale).value;
      Has(t, cat, num) && t[cat][num] == Image(name, scale) &&
      forall c, d :: (c, d) != (cat, num) ==> (Has(t, c, d) <==> Has(table, c, d)) && (Has(table, c, d) ==> t[c][d] == table[c][d])
  {
  }

  /** One entry of the table after a successful step: the new image at the name's key, else as before. */
  lemma AddFileAt(table: ImgTable, name: string, scale: int, c: char, d: char)
    requires AddFile(table, name, scale).Ok?
    ensures FileKey(name).Ok?
    ensures Has(AddFile(table, name, scale).value, c, d) <==> FileKey(name).value == (c, d) || Has(table, c, d)
    ensures Has(AddFile(table, name, scale).value, c, d) ==>
      AddFile(table, name, scale).value[c][d] == if FileKey(name).value == (c, d) then Image(name, scale) else table[c][d]
  {
  }

  /** The whole loop as a left fold over the listing; the first failing name stops it. */
  function Load(files: seq<string>, scale: int): (r: Result<ImgTable, LoadError>)
    ensures r.Ok? ==> r.value.Keys == Categories
  {
    if files == [] then Ok(Seeded())
    else
      match Load(files[..|files| - 1], scale)
      case Err(e) => Err(e)
      case Ok(t) => AddFile(t, files[|files| - 1], scale)
  }

  /** A name the loader accepts: it has a key, and the key's category is one of the five. */
  predicate Acceptable(name: string)
  {
    FileKey(name).Ok? && FileKey(name).value.0 in Categories
  }

  /** The error a name the loader refuses raises. */
  function Refusal(name: string): LoadError
    requires !Acceptable(name)
  {
    if FileKey(name).Err? then FileKey(name).error else UnknownCategory(FileKey(name).value.0)
  }

  /**
   * `gen_img_table`: seed the table with the five categories, then store each listed file's
   * image under its key, in listing order.
   */
  method GenImgTable(files: seq<string>, scale: int) returns (r: Result<ImgTable, LoadError>)
    ensures r == Load(files, scale)
  {
    var res := Seeded();
    for i := 0 to |files|
      invariant Load(files[..i], scale) == Ok(res)
    {
      var fn := files[i];
      var key := FileKey(fn);
      if key.Err? {
        LoadStepFails(files, scale, i, key.error);
        return Err(key.error);
      }
      var (cat, num) := key.value;
      if cat !in res {
        LoadStepFails(files, scale, i, UnknownCategory(cat));
        return Err(UnknownCategory(cat));
      }
      LoadStep(files, scale, i);
      res := res[cat := res[cat][num := Image(fn, scale)]];
    }
    assert files[..|files|] == files;
    return Ok(res);
  }

  /** One more name of the listing: the step `AddFile` applied to the table of the names before it. */
  lemma LoadStep(files: seq<string>, scale: int, i: nat)
    requires i < |files| && Load(files[..i], scale).Ok?
    ensures Load(files[..i + 1], scale) == AddFile(Load(files[..i], scale).value, files[i], scale)
  {
    assert files[..i + 1][..i] == files[..i];
  }

  /** A name that fails stops the load with its error. */
  lemma LoadStepFails(files: seq<string>, scale: int, i: nat, e: LoadError)
    requires i < |files| && Load(files[..i], scale).Ok?
    requires AddFile(Load(files[..i], scale).value, files[i], scale) == Err(e)
    ensures Load(files, scale) == Err(e)
  {
    LoadStep(files, scale, i);
    LoadStopsAtError(files, scale, i + 1);
  }

  /** Once a prefix of the listing fails, the whole listing fails with the same error. */
  lemma {:induction false} LoadStopsAtError(files: seq<string>, scale: int, k: nat)
    requires k <= |files|
    requires Load(files[..k], scale).Err?
    ensures Load(files, scale) == Load(files[..k], scale)
    decreases |files| - k
  {
    if k < |files| {
      var p := files[..k + 1];
      assert p[..|p| - 1] == files[..k];
      LoadStopsAtError(files, scale, k + 1);
    } else {
      assert files[..k] == files;
    }
  }

  /** Loading succeeds exactly when every listed name is acceptable. */
  lemma {:induction false} LoadSucceeds(files: seq<string>, scale: int)
    ensures Load(files, scale).Ok? <==> forall i :: 0 <= i < |files| ==> Acceptable(files[i])
  {
    if files != [] {
      var p := files[..|files| - 1];
      LoadSucceeds(p, scale);
      assert forall i :: 0 <= i < |p| ==> p[i] == files[i];
    }
  }

  /** A failed load reports the refusal of the first name that is not acceptable. */
  lemma {:induction false} LoadFirstError(files: seq<string>, scale: int)
    requires Load(files, scale).Err?
    ensures exists k :: (0 <= k < |files| && !Acceptable(files[k]) &&
      (forall j :: 0 <= j < k ==> Acceptable(files[j])) && Load(files, scale).error == Refusal(files[k]))
  {
    var p := files[..|files| - 1];
    var last := |files| - 1;
    assert forall i :: 0 <= i < |p| ==> p[i] == files[i];
    if Load(p, scale).Err? {
      LoadFirstError(p, scale);
      var k :| 0 <= k < |p| && !Acceptable(p[k]) &&
        (forall j :: 0 <= j < k ==> Acceptable(p[j])) && Load(p, scale).error == Refusal(p[k]);
      assert files[k] == p[k];
    } else {
      LoadSucceeds(p, scale);
      assert !Acceptable(files[last]);
    }
  }

  /** After a successful load, `table[c][d]` exists exactly when some listed name has key `(c, d)`. */
  lemma {:induction false} LoadHas(files: seq<string>, scale: int, c: char, d: char)
    requires Load(files, scale).Ok?
    ensures Has(Load(files, scale).value, c, d) <==>
      exists i :: 0 <= i < |files| && FileKey(files[i]) == Ok((c, d))
  {
    if files == [] {
      assert !Has(Seeded(), c, d);
    } else {
      var p := files[..|files| - 1];
      var last := |files| - 1;
      assert forall i :: 0 <= i < |p| ==> p[i] == files[i];
      LoadHas(p, scale, c, d);
      var t := Load(p, scale).value;
      assert Load(files, scale) == AddFile(t, files[last], scale);
      AddFileAt(t, files[last], scale, c, d);
      if FileKey(files[last]) == Ok((c, d)) {
        assert Has(Load(files, scale).value, c, d);
      } else if Has(t, c, d) {
        var i :| 0 <= i < |p| && FileKey(p[i]) == Ok((c, d));
        assert FileKey(files[i]) == Ok((c, d));
      } else {
        forall i | 0 <= i < |files|
          ensures FileKey(files[i]) != Ok((c, d))
        {
          if i < last {
            assert files[i] == p[i];
            assert !(0 <= i < |p| && FileKey(p[i]) == Ok((c, d)));
          }
        }
      }
    }
  }

  /**
   * When two names share a key, the later one wins: after a successful load, the entry of
   * `files[i]`'s key holds `files[i]`'s image as long as no later name has the same key.
   */
  lemma {:induction false} LoadLastWins(files: seq<string>, scale: int, i: nat)
    requires Load(files, scale).Ok?
    requires i < |files| && FileKey(files[i]).Ok?
    requires forall j :: i < j < |files| ==> FileKey(files[j]) != FileKey(files[i])
    ensures Has(Load(files, scale).value, FileKey(files[i]).value.0, FileKey(files[i]).value.1)
    ensures Load(files, scale).value[FileKey(files[i]).value.0][FileKey(files[i]).value.1] == Image(files[i], scale)
  {
    var p := files[..|files| - 1];
    var last := |files| - 1;
    var t := Load(p, scale).value;
    var (c, d) := FileKey(files[i]).value;
    assert Load(files, scale) == AddFile(t, files[last], scale);
    AddFileAt(t, files[last], scale, c, d);
    if i < last {
      assert forall j :: 0 <= j < |p| ==> p[j] == files[j];
      LoadLastWins(p, scale, i);
    }
  }

  /** A name starting with 'B' is always stored as the face-down tile b1, whatever else it holds. */
  lemma BackTileKey(name: string, scale: int, table: ImgTable)
    requires name != [] && name[0] == 'B'
    requires table.Keys == Categories
    ensures FileKey(name) == Ok(('b', '1'))
    ensures AddFile(table, name, scale).Ok?
    ensures AddFile(table, name, scale).value['b']['1'] == Image(name, scale)
  {
  }

  /** A name not starting with 'B' is stored under its lower-cased first character and its first digit. */
  lemma FirstDigitKey(name: string, i: nat)
    requires i < |name| && name[0] != 'B' && IsDigit(name[i])
    requires forall j :: 0 <= j < i ==> !IsDigit(name[j])
    ensures FileKey(name) == Ok((Lower(name[0]), name[i]))
  {
    var r := SearchDigit(name);
    SearchDigitMeaning(name);
    var k :| 0 <= k < |name| && name[k] == r.value && IsDigit(name[k]) && (forall j :: 0 <= j < k ==> !IsDigit(name[j]));
    assert k == i;
  }

  /** Example: the first digit anywhere in the name gives the rank. */
  lemma KeyExample()
    ensures FileKey("Man5-Dora.png") == Ok(('m', '5'))
  {
    var name := "Man5-Dora.png";
    assert name[0] == 'M' && name[3] == '5';
    FirstDigitKey(name, 3);
  }
}
