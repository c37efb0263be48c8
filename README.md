# MahjongTracker hand notation and hand records, in Dafny

MahjongTracker is a desktop logbook of riichi-mahjong hands. Each saved hand is a JSON
record; the viewer shows every record as a row of tile pictures, read from the record's
MPSZ notation string ("m123p406 z666": a suit letter, then one rank digit per tile, a blank
before each called group, `b` for a face-down tile). The tile pictures come from a directory
of image files, loaded once into a table keyed by suit letter and rank digit.

This project models the three parts of the program that carry logic, and proves what they do:

- `TilePngs` (Util/tilePngs.py): `gen_img_table` as the method `GenImgTable`, a loop over the
  directory listing that fills a two-level table seeded with the five categories `z m p s b`.
  `Load` is the same loop as a left fold, and the lemmas say which names load, which error
  the first bad name raises, which entries exist afterwards and that the later of two names
  with the same key wins.
- `Notation` and `Frames` (Util/HandFrame.py): `_read_hand` as the method `ReadHand`, a
  nested loop over the matches of `[mpszb][0-9]*| ` (the function `FindAll` models
  `re.findall`) that looks every tile up in the image table; `ReadRun` is its inner loop over
  the digits of one suit run. `Tokens` is what it produces. `Emit` is an independent reading
  of the same notation one character at a time, left to right, carrying the suit letter that
  governs the next digit (`Read`, `Next`); it is proved equal to `Tokens`, and the lemmas
  about blanks, suit runs, skipped characters, splitting and counting follow from it. The class `HandFrame` holds one record's fields, lays out the
  hand's labels in columns (`ArrangeHand`) and gives the record back with `GetData`.
  `GetData` writes the "won" value under "rtn", as line 51 of HandFrame.py does; the model
  keeps this, and `ExportedIsIdentity` and `ExportedIdempotent` state what it costs: a record
  whose "rtn" differs from "won" does not survive a save, and after one save nothing changes.
- `Viewer` (Util/HandViewer.py): the class `HandViewer` with `loadedHands`, `ImportHands`
  (replace the whole list, one frame per record in order, frame i in row i) and
  `ExportHands` (each frame's `GetData`, in order), with the import/export round trip.

Exceptions the program raises become error values: `LoadError` for the loader (IndexError on
an empty name, AttributeError when a name has no digit, KeyError on an unknown category),
`Err(key)` from `ReadHand` for the image key a lookup misses, and `FrameError` for a record a
frame cannot be built from (a missing field, a notation field that is not a string, a missing
image), reported in the order `HandFrame.__init__` reads the fields.

The notation has five suit letters, `b` included. Characters that no match of the notation's
regular expression covers are skipped, not rejected.

## Model

| member | source | states |
|---|---|---|
| `TilePngs.SearchDigit` | Util/tilePngs.py:31 | `re.search(r'\d', fn)`, scanning left to right; it has no contract of its own, and `SearchDigitMeaning` states its meaning |
| `TilePngs.SearchDigitMeaning` | Util/tilePngs.py:31 | the search finds the leftmost digit of the name, and finds nothing exactly when the name has no digit |
| `TilePngs.FileKeyMeaning` | Util/tilePngs.py:29-31 | the category is the lower-cased first character; the rank is '1' for a name starting with 'B', else the first digit anywhere in the name; an empty name and a non-'B' name without a digit are the two errors before the table is consulted |
| `TilePngs.FileKey` | Util/tilePngs.py:29-31 | the key of a file name or the error computing it raises; it has no contract of its own, and `FileKeyMeaning` states its meaning |
| `TilePngs.Seeded` | Util/tilePngs.py:20-25 | the table starts with exactly the five categories z, m, p, s, b, each empty |
| `TilePngs.AddFileSetsOneEntry` | Util/tilePngs.py:29-34 | one name either raises its own error, or raises KeyError when its category is not in the table, or sets exactly the entry `res[cat][num]` to its image and keeps every other entry |
| `TilePngs.AddFile` | Util/tilePngs.py:29-34 | one iteration of the loading loop: the table keeps its category keys; `AddFileSetsOneEntry` states which entry it sets and which errors it raises |
| `TilePngs.AddFileAt` | Util/tilePngs.py:34 | after one successful step an entry exists exactly when it is the name's key or existed before, and holds the new image or the old one accordingly |
| `TilePngs.Load` | Util/tilePngs.py:20-35 | a successful load has exactly the five category keys, for any listing, the empty one included |
| `TilePngs.GenImgTable` | Util/tilePngs.py:18-37 | the loop over the listing returns the left fold `Load` of the listing, stopping at the first name that raises |
| `TilePngs.LoadStopsAtError` | Util/tilePngs.py:27-34 | once a prefix of the listing raises, the whole listing raises the same error |
| `TilePngs.LoadSucceeds` | Util/tilePngs.py:27-34 | loading succeeds exactly when every listed name has a key whose category is one of the five |
| `TilePngs.LoadFirstError` | Util/tilePngs.py:29-34 | a failed load raises the error of the first name that is not acceptable |
| `TilePngs.LoadHas` | Util/tilePngs.py:27-34 | after a successful load, `res[c][d]` exists exactly when some listed name has key (c, d) |
| `TilePngs.LoadLastWins` | Util/tilePngs.py:27-34 | when several names share a key, the entry holds the image of the last of them in listing order |
| `TilePngs.BackTileKey` | Util/tilePngs.py:31 | a name starting with 'B' is always stored as the face-down tile b1 |
| `TilePngs.FirstDigitKey` | Util/tilePngs.py:29-31 | a name not starting with 'B' is stored under its lower-cased first character and the first digit in it, wherever that digit is |
| `TilePngs.KeyExample` | Util/tilePngs.py:29-31 | "Man5-Dora.png" is stored under m5 |
| `Notation.Explode` | Util/HandFrame.py:71-81 | the labels of one match: a spacer for a blank, else one tile per digit after the suit letter; it has no contract of its own, and `SuitRun` and `BareSuitLetter` state what a match gives |
| `Notation.Expand` | Util/HandFrame.py:69-84 | the labels of the matches in order; it has no contract of its own, and `TokensAreEmit` states its meaning |
| `Notation.Tokens` | Util/HandFrame.py:67-85 | the label list `_read_hand` builds for a notation string; it has no contract of its own, and `TokensAreEmit` states its meaning |
| `Notation.DigitRun` | Util/HandFrame.py:68 | the greedy `[0-9]*` takes the longest run of digits: all it takes are digits and the next character is not one |
| `Notation.FindAll` | Util/HandFrame.py:68 | every match of the notation pattern is a blank, or a suit letter followed by digits only |
| `Notation.GoverningMeaning` | Util/HandFrame.py:68 | the suit letter governing a position is a suit letter followed only by digits up to that position, and there is none when every earlier suit letter is cut off by a non-digit |
| `Notation.EmitConcat` | Util/HandFrame.py:68 | a suit run ends at the first non-digit, so the reading of `s + t` is that of `s` then that of `t` whenever `t` starts with a non-digit or no suit letter governs the end of `s` |
| `Notation.TokensAreEmit` | Util/HandFrame.py:67-85 | the labels built from the regular-expression matches equal the per-character reading: a blank gives a spacer, a digit governed by a suit letter gives that tile, every other character gives nothing |
| `Notation.SpaceSplits` | Util/HandFrame.py:68-84 | the labels of `s + " " + t` are those of `s`, one spacer, then those of `t` |
| `Notation.SuitRun` | Util/HandFrame.py:76-81 | a suit letter followed by digits d1..dk, then by anything not starting with a digit, gives the tiles (c, d1)..(c, dk) in order, then the labels of the rest |
| `Notation.BareSuitLetter` | Util/HandFrame.py:76 | a suit letter not followed by a digit gives nothing |
| `Notation.SkippedPrefix` | Util/HandFrame.py:68 | characters that are neither suit letters nor blanks, digits no suit letter reaches among them, give nothing |
| `Notation.DigitsBeforeRun` | Util/HandFrame.py:68 | digits before a suit letter give nothing: digits then a suit letter and one digit give exactly that one tile |
| `Notation.UnattachedDigitsExample` | Util/HandFrame.py:68 | "123m4" gives only the tile m4 |
| `Notation.SpacerCount` | Util/HandFrame.py:71-74 | the number of spacers equals the number of blanks in the input |
| `Notation.TokenCount` | Util/HandFrame.py:67-85 | the number of labels is the number of blanks plus the number of digits governed by a suit letter |
| `Notation.TilesWellFormed` | Util/HandFrame.py:76-81 | every tile label has a suit letter and a rank digit |
| `Frames.LookupKey` | Util/HandFrame.py:78 | the key `images[suit][rank]` raises KeyError with: the suit when it is absent, else the rank; it has no contract of its own, and `FirstMissingKey` uses it |
| `Frames.FirstMissingKey` | Util/HandFrame.py:78 | there is no missing key exactly when every tile has an image; otherwise it is the key the first tile without an image fails on (its suit when the suit is absent, else its rank) |
| `Frames.FirstMissingKeyAt` | Util/HandFrame.py:78 | when the tile at index i is the first without an image, the lookups fail on that tile's key |
| `Frames.ReadRun` | Util/HandFrame.py:76-81 | the inner loop over one suit run succeeds exactly when every tile of the run has an image, then returns the run's tiles in order; otherwise it raises KeyError with the first missing key |
| `Frames.ReadHand` | Util/HandFrame.py:66-86 | the loop succeeds exactly when every tile of the notation has an image, then returns the labels `Tokens(input)` in order; otherwise it raises KeyError with the first missing key |
| `Frames.FirstAbsent` | Util/HandFrame.py:23-31 | the first field of the list the record lacks, and none exactly when all are present |
| `Frames.NotationError` | Util/HandFrame.py:19-22 | the error reading the "hand" or "dora" field raises: a missing field, a value that is not a string, or the first missing image key; it has no contract of its own, and `RecordErrorMeaning` states the combined meaning |
| `Frames.RecordError` | Util/HandFrame.py:19-31 | the error building a frame raises, in the order the fields are read: the hand, the dora, then the plain fields; it has no contract of its own, and `RecordErrorMeaning` states its meaning |
| `Frames.RecordErrorMeaning` | Util/HandFrame.py:19-31 | a frame can be built exactly when the record has every field, "hand" and "dora" are strings and every tile of both has an image |
| `Frames.HandFrame.constructor` | Util/HandFrame.py:14-34 | the frame holds the raw hand and dora strings, their labels and every other field of the record, and its hand's labels are placed in columns 0, 1, ... |
| `Frames.HandFrame.ArrangeHand` | Util/HandFrame.py:89-94 | label i of the hand goes to column i; other columns are kept |
| `Frames.HandFrame.GetData` | Util/HandFrame.py:42-56 | the saved record is the record read, restricted to the hand fields, with "rtn" replaced by "won" |
| `Frames.Exported` | Util/HandFrame.py:43-54 | the dict `get_data` builds, key by key, with "rtn" set to the "won" value; it has no contract of its own, and `ExportedFields` states its meaning |
| `Frames.ExportedFields` | Util/HandFrame.py:44-54 | the saved record has exactly the eleven hand fields; "hand" and "dora" are the raw strings, every field but "rtn" is unchanged, and "rtn" is the "won" value |
| `Frames.ExportedIsIdentity` | Util/HandFrame.py:51 | saving gives back the record read exactly when it has no extra field and its "rtn" equals its "won" |
| `Frames.ExportedIdempotent` | Util/HandFrame.py:42-56 | saving a record that was saved and reloaded changes nothing |
| `Frames.ExportedReloads` | Util/HandFrame.py:19-22 | a saved record can be shown again whenever the record it was saved from could (which then has every field) |
| `Viewer.FirstRecordError` | Util/HandViewer.py:43-44 | importing raises nothing exactly when every record can be shown |
| `Viewer.FirstRecordErrorAt` | Util/HandViewer.py:43-44 | the import raises the error of the first record that cannot be shown |
| `Viewer.BuildFrames` | Util/HandViewer.py:43-44 | one fresh frame per record, frame i built from record i with its hand's labels in columns 0, 1, ... in order, or the first record's error |
| `Viewer.ExportAll` | Util/HandViewer.py:55 | the saved list has one record per loaded record, the i-th saved from the i-th |
| `Viewer.ExportAllIdempotent` | Util/HandViewer.py:55 | saving, reloading and saving again writes the same list |
| `Viewer.ExportAllReloads` | Util/HandViewer.py:55 | a saved list imports without error whenever the list it was saved from did |
| `Viewer.HandViewer.constructor` | Util/HandViewer.py:25 | a fresh viewer has no loaded hands, shows none, and exports the empty list |
| `Viewer.HandViewer.ImportHands` | Util/HandViewer.py:38-49 | the old frames are removed from the grid; on success the list is replaced by one fresh frame per record, in order, frame i in row i with its hand's labels in columns 0, 1, ..., and exporting gives each record with "rtn" replaced by "won"; on failure the list is kept and nothing is shown |
| `Viewer.HandViewer.ArrangeRows` | Util/HandViewer.py:46-48 | frame i of the list goes to row i, and only those rows are used |
| `Viewer.HandViewer.ExportHands` | Util/HandViewer.py:54-55 | one record per loaded frame, in display order, each the frame's saved record |
| `Viewer.HandViewer.ExportMatches` | Util/HandViewer.py:55 | after frames built from a list of records, exporting gives that list as each frame saves it |

## Left out

- Widgets: Tkinter frames, labels, fonts, colours, `grid_configure`, `destroy` and the canvas
  scroll-region handler are not modelled; a label is a value `Tile(suit, rank)` or `Spacer`
  and the picture it shows is `images[suit][rank]`; grid placement is a map from column or row
  to what sits there.
- Util/InputFrame.py and mahjongtracker.py are not part of this model: they lay out the form,
  read and write the JSON file, and catch exceptions at the top level.
- The directory listing, `os.fsencode`/`os.fsdecode`, the `print` of each file and the decoding
  of image files: the listing is an input sequence of names and an image is the opaque value
  `Photo(path, scale)`.
- `TilePngs.GenImgTable`: the default downscaling factor `scale=1` is not modelled; the factor is
  always passed explicitly.
- `TilePngs.FileKey`: `str.lower()` and `\d` are modelled on ASCII only; a non-ASCII first
  character or a non-ASCII decimal digit in a file name is not modelled.
- `Frames.Value`: JSON numbers are integers and arrays and objects are not modelled; only
  "hand" and "dora" are inspected, every other field is copied as it is.
- Key order of the saved JSON object is not modelled: a record is a map.
- Frames created by `import_hands` before a record that raises are not modelled; they are
  never placed in the grid.
