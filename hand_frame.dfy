/**
 * One saved hand as a row of the viewer. A hand record is a JSON object; the frame reads the
 * hand and dora notation into labels, keeps the other fields as they are, places the hand's
 * labels in columns left to right, and gives the record back for saving with `GetData`.
 */
module Frames {
  import opened Wrappers
  import opened Notation
  import TilePngs

  /** A JSON value as a record field may hold it. */
  datatype Value = Str(s: string) | Int(i: int) | Bool(b: bool) | Null

  /** A hand record: a JSON object keyed by field name. */
  type Record = map<string, Value>

  /** The fields read after the two notation fields, in the order the frame reads them. */
  const PlainFields: seq<string> :=
    ["shanten", "accepts", "yaku", "furiten", "won", "rtn", "left", "where", "start"]

  /** Every field of a hand record. */
  const FieldNames: set<string> :=
    {"hand", "dora", "shanten", "accepts", "yaku", "furiten", "won", "rtn", "left", "where", "start"}

  /** Why a record cannot be shown: a missing field, a notation field that is not a string,
      or a tile whose image is missing (the key the image table lacks). */
  datatype FrameError = MissingField(name: string) | NotAString(name: string) | MissingImage(key: char)

  /** Whether the image table holds the picture of tile label `l`. */
  predicate HasImage(images: TilePngs.ImgTable, l: Label)
    requires l.Tile?
  {
    l.suit in images && l.rank in images[l.suit]
  }

  /** The key a lookup `images[suit][rank]` fails on: the suit when it is absent, else the rank. */
  function LookupKey(images: TilePngs.ImgTable, l: Label): char
    requires l.Tile?
  {
    if l.suit !in images then l.suit else l.rank
  }

  /** Whether every tile of `ls` has its image. */
  predicate AllPresent(ls: seq<Label>, images: TilePngs.ImgTable)
  {
    forall i :: 0 <= i < |ls| && ls[i].Tile? ==> HasImage(images, ls[i])
  }

  /** The key the first tile without an image fails on, if any tile lacks one. */
  function FirstMissingKey(ls: seq<Label>, images: TilePngs.ImgTable): (r: Option<char>)
    ensures r.None? <==> AllPresent(ls, images)
    ensures r.Some? ==> exists i :: (0 <= i < |ls| && ls[i].Tile? && !HasImage(images, ls[i]) &&
      r.value == LookupKey(images, ls[i]) && (forall j :: 0 <= j < i && ls[j].Tile? ==> HasImage(images, ls[j])))
  {
    if ls == [] then None
    else if ls[0].Tile? && !HasImage(images, ls[0]) then Some(LookupKey(images, ls[0]))
    else
      var r := FirstMissingKey(ls[1..], images);
      assert forall j :: 0 <= j < |ls[1..]| ==> ls[1..][j] == ls[j + 1];
      r
  }

  /** When the tile at index i is the first without an image, the lookups fail on its key. */
  lemma {:induction false} FirstMissingKeyAt(ls: seq<Label>, i: nat, images: TilePngs.ImgTable)
    requires i < |ls| && ls[i].Tile? && !HasImage(images, ls[i])
    requires forall k :: 0 <= k < i && ls[k].Tile? ==> HasImage(images, ls[k])
    ensures FirstMissingKey(ls, images) == Some(LookupKey(images, ls[i]))
    decreases i
  {
    if i > 0 {
      assert forall k :: 0 <= k < i - 1 ==> ls[1..][k] == ls[k + 1];
      FirstMissingKeyAt(ls[1..], i - 1, images);
    }
  }

  /** The first missing key of a concatenation: the first part's, else the second part's. */
  lemma {:induction false} FirstMissingKeyConcat(a: seq<Label>, b: seq<Label>, images: TilePngs.ImgTable)
    ensures FirstMissingKey(a + b, images) ==
      if FirstMissingKey(a, images).Some? then FirstMissingKey(a, images) else FirstMissingKey(b, images)
  {
    if a != [] {
      assert (a + b)[1..] == a[1..] + b;
      FirstMissingKeyConcat(a[1..], b, images);
    } else {
      assert a + b == b;
    }
  }

  /**
   * `_read_hand`: the labels for notation `input`, one per match of the notation's regular
   * expression and one per digit of a suit run, each tile looked up in the image table.
   * A lookup that fails raises KeyError with the key that was missing.
   */
  method ReadHand(input: string, images: TilePngs.ImgTable) returns (r: Result<seq<Label>, char>)
    ensures r.Ok? <==> FirstMissingKey(Tokens(input), images).None?
    ensures r.Ok? ==> r.value == Tokens(input)
    ensures r.Err? ==> FirstMissingKey(Tokens(input), images) == Some(r.error)
  {
    var matches := FindAll(input);
    ghost var toks := Tokens(input);
    var res: seq<Label> := [];
    assert matches[0..] == matches;
    for m := 0 to |matches|
      invariant res + Expand(matches[m..]) == toks
      invariant AllPresent(res, images)
    {
      var mtch := matches[m];
      ghost var later := Expand(matches[m + 1..]);
      ConsumeMatch(res, matches, m, toks);
      if mtch == " " {
        PresentHere(res, Spacer, images);
        res := res + [Spacer];
      } else {
        var run := ReadRun(mtch, images);
        if run.Err? {
          MissingIn(res, Explode(mtch), later, images);
          return Err(run.error);
        }
        PresentAll(res, run.value, images);
        res := res + run.value;
      }
    }
    assert res + [] == res;
    return Ok(res);
  }

  /**
   * The inner loop of `_read_hand` over one suit run: the tile of each digit after the suit
   * letter, in order, each looked up in the image table.
   */
  method ReadRun(mtch: string, images: TilePngs.ImgTable) returns (r: Result<seq<Label>, char>)
    requires mtch != [] && mtch != " "
    ensures r.Ok? <==> AllPresent(Explode(mtch), images)
    ensures r.Ok? ==> r.value == Explode(mtch)
    ensures r.Err? ==> FirstMissingKey(Explode(mtch), images) == Some(r.error)
  {
    var labels: seq<Label> := [];
    var j := 1;
    while j < |mtch|
      invariant 1 <= j <= |mtch|
      invariant RunPrefix(mtch, labels, j)
      invariant AllPresent(labels, images)
    {
      var d := mtch[j];
      var tile := Tile(mtch[0], d);
      if mtch[0] !in images || d !in images[mtch[0]] {
        RunMissing(mtch, labels, j, images);
        return Err(if mtch[0] !in images then mtch[0] else d);
      }
      var img := images[mtch[0]][d];
      PresentHere(labels, tile, images);
      labels := labels + [tile];
      j := j + 1;
    }
    RunPrefixComplete(mtch, labels);
    return Ok(labels);
  }

  /** `labels` holds the tiles of the first `j - 1` digits of the suit run `mtch`. */
  predicate RunPrefix(mtch: string, labels: seq<Label>, j: nat)
    requires mtch != [] && 1 <= j <= |mtch|
  {
    |labels| == j - 1 && forall k :: 0 <= k < j - 1 ==> labels[k] == Tile(mtch[0], mtch[k + 1])
  }

  /** The tile of digit j has no image, and the tiles before it all have one: the lookups fail there. */
  lemma RunMissing(mtch: string, labels: seq<Label>, j: nat, images: TilePngs.ImgTable)
    requires mtch != [] && mtch != " " && 1 <= j < |mtch|
    requires RunPrefix(mtch, labels, j) && AllPresent(labels, images)
    requires !HasImage(images, Tile(mtch[0], mtch[j]))
    ensures FirstMissingKey(Explode(mtch), images) == Some(LookupKey(images, Tile(mtch[0], mtch[j])))
  {
    var run := Explode(mtch);
    assert run[j - 1] == Tile(mtch[0], mtch[j]);
    assert forall k :: 0 <= k < j - 1 && run[k].Tile? ==> HasImage(images, run[k]) by {
      assert forall k :: 0 <= k < j - 1 ==> run[k] == labels[k];
    }
    FirstMissingKeyAt(run, j - 1, images);
  }

  /** Once every digit is read, the labels are the whole run. */
  lemma RunPrefixComplete(mtch: string, labels: seq<Label>)
    requires mtch != [] && mtch != " "
    requires RunPrefix(mtch, labels, |mtch|)
    ensures labels == Explode(mtch)
  {
  }

  /**
   * One step of the loop over the matches: the labels from match m on are those of match m,
   * then those of the matches after it, so match m's labels move to the labels built so far.
   */
  lemma ConsumeMatch(done: seq<Label>, ms: seq<string>, m: nat, all: seq<Label>)
    requires m < |ms|
    requires forall i :: 0 <= i < |ms| ==> ms[i] != []
    requires done + Expand(ms[m..]) == all
    ensures Expand(ms[m..]) == Explode(ms[m]) + Expand(ms[m + 1..])
    ensures (done + Explode(ms[m])) + Expand(ms[m + 1..]) == all
  {
    assert ms[m..][1..] == ms[m + 1..];
  }

  /** A run with a missing image, after labels that all have one, is where the lookups fail. */
  lemma MissingIn(done: seq<Label>, run: seq<Label>, rest: seq<Label>, images: TilePngs.ImgTable)
    requires AllPresent(done, images)
    requires FirstMissingKey(run, images).Some?
    ensures FirstMissingKey(done + (run + rest), images) == FirstMissingKey(run, images)
  {
    FirstMissingKeyConcat(done, run + rest, images);
    FirstMissingKeyConcat(run, rest, images);
  }

  /** Appending labels that all have their images keeps every lookup so far successful. */
  lemma PresentAll(done: seq<Label>, run: seq<Label>, images: TilePngs.ImgTable)
    requires AllPresent(done, images) && AllPresent(run, images)
    ensures AllPresent(done + run, images)
  {
    var d := done + run;
    assert forall i :: 0 <= i < |d| ==> d[i] == if i < |done| then done[i] else run[i - |done|];
  }

  /** Appending a spacer, or a tile that has an image, keeps every lookup so far successful. */
  lemma PresentHere(done: seq<Label>, l: Label, images: TilePngs.ImgTable)
    requires AllPresent(done, images)
    requires l.Tile? ==> HasImage(images, l)
    ensures AllPresent(done + [l], images)
  {
    var d := done + [l];
    assert forall i :: 0 <= i < |done| ==> d[i] == done[i];
  }

  /** The first field of `keys` the record lacks. */
  function FirstAbsent(keys: seq<string>, data: Record): (r: Option<string>)
    ensures r.None? <==> forall i :: 0 <= i < |keys| ==> keys[i] in data
    ensures r.Some? ==> exists i :: (0 <= i < |keys| && keys[i] == r.value && r.value !in data &&
      (forall j :: 0 <= j < i ==> keys[j] in data))
  {
    if keys == [] then None
    else if keys[0] !in data then Some(keys[0])
    else
      var r := FirstAbsent(keys[1..], data);
      assert forall j :: 0 <= j < |keys[1..]| ==> keys[1..][j] == keys[j + 1];
      r
  }

  /** The error reading one notation field raises, if any. */
  function NotationError(data: Record, name: string, images: TilePngs.ImgTable): Option<FrameError>
  {
    if name !in data then Some(MissingField(name))
    else if !data[name].Str? then Some(NotAString(name))
    else
      match FirstMissingKey(Tokens(data[name].s), images)
      case Some(k) => Some(MissingImage(k))
      case None => None
  }

  /**
   * The error building a frame from `data` raises, in the order the fields are read:
   * the hand, the dora, then the plain fields.
   */
  function RecordError(data: Record, images: TilePngs.ImgTable): Option<FrameError>
  {
    var hand := NotationError(data, "hand", images);
    if hand.Some? then hand
    else
      var dora := NotationError(data, "dora", images);
      if dora.Some? then dora
      else
        match FirstAbsent(PlainFields, data)
        case Some(k) => Some(MissingField(k))
        case None => None
  }

  /**
   * A frame can be built from `data` exactly when the record has every field, "hand" and
   * "dora" are strings, and every tile of both has an image.
   */
  lemma RecordErrorMeaning(data: Record, images: TilePngs.ImgTable)
    ensures RecordError(data, images).None? <==>
      FieldNames <= data.Keys && data["hand"].Str? && data["dora"].Str? &&
      FirstMissingKey(Tokens(data["hand"].s), images).None? &&
      FirstMissingKey(Tokens(data["dora"].s), images).None?
  {
    if RecordError(data, images).None? {
      assert forall i :: 0 <= i < |PlainFields| ==> PlainFields[i] in data;
      assert "shanten" == PlainFields[0] && "accepts" == PlainFields[1] && "yaku" == PlainFields[2];
      assert "furiten" == PlainFields[3] && "won" == PlainFields[4] && "rtn" == PlainFields[5];
      assert "left" == PlainFields[6] && "where" == PlainFields[7] && "start" == PlainFields[8];
    }
  }

  /**
   * `get_data`'s record for a frame built from `data`: every field as it was read, except that
   * "rtn" carries the "won" value.
   */
  function Exported(data: Record): (r: Record)
    requires FieldNames <= data.Keys
  {
    map["hand" := data["hand"], "dora" := data["dora"], "shanten" := data["shanten"],
        "accepts" := data["accepts"], "yaku" := data["yaku"], "furiten" := data["furiten"],
        "won" := data["won"], "rtn" := data["won"], "left" := data["left"],
        "where" := data["where"], "start" := data["start"]]
  }

  /** The saved record has exactly the hand fields; all equal the read record's but "rtn", which is "won". */
  lemma ExportedFields(data: Record)
    requires FieldNames <= data.Keys
    ensures Exported(data).Keys == FieldNames
    ensures forall k :: k in FieldNames && k != "rtn" ==> Exported(data)[k] == data[k]
    ensures Exported(data)["rtn"] == data["won"]
  {
    assert Exported(data).Keys <= FieldNames;
  }

  /** Saving gives back the record read exactly when it has no extra field and its "rtn" equals "won". */
  lemma ExportedIsIdentity(data: Record)
    requires FieldNames <= data.Keys
    ensures Exported(data) == data <==> data.Keys == FieldNames && data["rtn"] == data["won"]
  {
    ExportedFields(data);
    if data.Keys == FieldNames && data["rtn"] == data["won"] {
      assert forall k :: k in data ==> Exported(data)[k] == data[k];
    }
  }

  /** After one save and reload, saving again changes nothing: the "rtn" value is lost for good. */
  lemma ExportedIdempotent(data: Record)
    requires FieldNames <= data.Keys
    ensures Exported(Exported(data)) == Exported(data)
  {
    ExportedIsIdentity(Exported(data));
  }

  /** A record that can be shown can be shown again after it is saved. */
  lemma ExportedReloads(data: Record, images: TilePngs.ImgTable)
    requires RecordError(data, images).None?
    ensures FieldNames <= data.Keys && RecordError(Exported(data), images).None?
  {
    RecordErrorMeaning(data, images);
    RecordErrorMeaning(Exported(data), images);
    var e := Exported(data);
    assert e["hand"] == data["hand"] && e["dora"] == data["dora"];
  }

  /** The frame of one saved hand. */
  class HandFrame {
    const images: TilePngs.ImgTable
    const rawHand: string
    const hand: seq<Label>
    const rawDora: string
    const dora: seq<Label>
    const shanten: Value
    const accepts: Value
    const yaku: Value
    const furiten: Value
    const won: Value
    const rtn: Value
    const left: Value
    const where: Value
    const start: Value
    /** Grid placement of the hand's labels: column -> label. */
    var columns: map<nat, Label>
    /** The record this frame was built from. */
    ghost const record: Record

    /** The frame holds what was read from its record. */
    ghost predicate Loaded()
    {
      FieldNames <= record.Keys &&
      record["hand"] == Str(rawHand) && hand == Tokens(rawHand) &&
      record["dora"] == Str(rawDora) && dora == Tokens(rawDora) &&
      shanten == record["shanten"] && accepts == record["accepts"] && yaku == record["yaku"] &&
      furiten == record["furiten"] && won == record["won"] && rtn == record["rtn"] &&
      left == record["left"] && where == record["where"] && start == record["start"]
    }

    /** The hand's labels sit in columns 0, 1, ... in order, and no other column is used. */
    ghost predicate Laid()
      reads this
    {
      columns == map i | 0 <= i < |hand| :: hand[i]
    }

    /** `__init__`: read every field of `handData`, then lay the hand out. */
    constructor (handData: Record, images: TilePngs.ImgTable)
      requires RecordError(handData, images).None?
      ensures record == handData && this.images == images && Loaded()
      ensures Laid()
    {
      RecordErrorMeaning(handData, images);
      this.images := images;
      rawHand := handData["hand"].s;
      var h := ReadHand(handData["hand"].s, images);
      hand := h.value;
      rawDora := handData["dora"].s;
      var d := ReadHand(handData["dora"].s, images);
      dora := d.value;
      shanten := handData["shanten"];
      accepts := handData["accepts"];
      yaku := handData["yaku"];
      furiten := handData["furiten"];
      won := handData["won"];
      rtn := handData["rtn"];
      left := handData["left"];
      where := handData["where"];
      start := handData["start"];
      record := handData;
      columns := map[];
      new;
      ArrangeHand();
    }

    /** `get_data`: the record to save; its "rtn" is the frame's "won" value. */
    function GetData(): (r: Record)
      requires Loaded()
      ensures r == Exported(record)
    {
      map["hand" := Str(rawHand), "dora" := Str(rawDora), "shanten" := shanten, "accepts" := accepts,
          "yaku" := yaku, "furiten" := furiten, "won" := won, "rtn" := won, "left" := left,
          "where" := where, "start" := start]
    }

    /** `_arrange_hand`: label i of the hand goes to column i; other columns are kept. */
    method ArrangeHand()
      modifies this`columns
      ensures forall i :: 0 <= i < |hand| ==> i in columns && columns[i] == hand[i]
      ensures forall c :: c in columns && c >= |hand| ==> c in old(columns) && columns[c] == old(columns)[c]
      ensures forall c :: c in old(columns) ==> c in columns
      ensures old(columns) == map[] ==> columns == map i | 0 <= i < |hand| :: hand[i]
    {
      for i := 0 to |hand|
        invariant forall k :: 0 <= k < i ==> k in columns && columns[k] == hand[k]
        invariant forall c :: c in columns && !(0 <= c < i) ==> c in old(columns) && columns[c] == old(columns)[c]
        invariant forall c :: c in old(columns) ==> c in columns
      {
        columns := columns[i := hand[i]];
      }
    }
  }
}
