/**
 * Reading the songs of one chunk file: the row rule of
 * LastFMScrobbler.read_csv_file (applied to the rows csv.reader hands over)
 * and the line rule of LastFMScrobbler.read_csv_alternative (applied to the
 * raw lines of the file). Opening the file is a parameter: `None` stands for
 * a file that could not be opened.
 */
module ChunkParsing {

  import opened Wrappers
  import opened PyBuiltins

  datatype Song = Song(artist: string, track: string)

  /** The separator of a line written as "artist", "track". */
  const SpacedSeparator: string := "\", \""
  /** The separator of a line written as "artist","track". */
  const TightSeparator: string := "\",\""

  /** field.strip().strip('"').strip(), applied to every field before the test. */
  function Clean(field: string): (r: string)
    ensures Trimmed(r)
  {
    Strip(StripChar(Strip(field), '"'))
  }

  /** The header pair: artist.lower() == "artist" and track.lower() == "track".
      Such fields are six and five letters, so they are non-empty, have no
      whitespace at their ends and hold no quote: only this test drops them. */
  predicate IsHeader(artist: string, track: string)
    ensures IsHeader(artist, track) ==> |artist| == 6 && |track| == 5
    ensures IsHeader(artist, track) ==> Trimmed(artist) && Trimmed(track) && '"' !in artist && '"' !in track
  {
    LowerEquals(artist, "artist") && LowerEquals(track, "track")
  }

  /** What every song the readers return satisfies: both fields non-empty,
      no whitespace at their ends, and not the header pair. */
  predicate Acceptable(s: Song) {
    s.artist != [] && s.track != [] && Trimmed(s.artist) && Trimmed(s.track) && !IsHeader(s.artist, s.track)
  }

  /** Every song of a list is acceptable. */
  predicate AllAcceptable(songs: seq<Song>) {
    forall k :: 0 <= k < |songs| ==> Acceptable(songs[k])
  }

  /** The acceptance test shared by the three sites that append a song: the
      cleaned pair is kept exactly when it is acceptable. */
  function AcceptFields(rawArtist: string, rawTrack: string): (r: Option<Song>)
    ensures r.Some? <==> Acceptable(Song(Clean(rawArtist), Clean(rawTrack)))
    ensures r.Some? ==> r.value == Song(Clean(rawArtist), Clean(rawTrack))
  {
    var artist, track := Clean(rawArtist), Clean(rawTrack);
    if artist != [] && track != [] && !IsHeader(artist, track) then Some(Song(artist, track)) else None
  }

  /** The row rule of read_csv_file: the first two fields when there are at
      least two, otherwise a single field cut at its first comma. */
  function ParseRow(row: seq<string>): (r: Option<Song>)
    ensures r.Some? ==> Acceptable(r.value)
  {
    if |row| >= 2 then
      AcceptFields(row[0], row[1])
    else if |row| == 1 && Contains(row[0], ",") then
      var parts := SplitOnce(row[0], ",");
      if |parts| == 2 then AcceptFields(parts[0], parts[1]) else None
    else
      None
  }

  /** Python's line[1:-1]: the text without its first and last character,
      and the empty text when there are fewer than two. */
  function InnerOf(line: string): (inner: string)
    ensures |line| >= 2 ==> line == [line[0]] + inner + [line[|line| - 1]]
    ensures |line| < 2 ==> inner == []
  {
    if |line| >= 2 then line[1..|line| - 1] else []
  }

  /** The line rule of read_csv_alternative. */
  function ParseLine(raw: string): (r: Option<Song>)
    ensures r.Some? ==> Acceptable(r.value)
  {
    var line := Strip(raw);
    if line == [] then
      None
    else if Contains(line, SpacedSeparator) then
      var parts := Split(line, SpacedSeparator);
      if |parts| == 2 then AcceptFields(parts[0], parts[1]) else None
    else if Contains(line, TightSeparator) then
      var parts := Split(line, TightSeparator);
      if |parts| == 2 then AcceptFields(parts[0], parts[1]) else None
    else if Contains(line, ",") then
      var parts :=
        if StartsWith(line, "\"") && EndsWith(line, "\"") then
          var inner := InnerOf(line);
          if Contains(inner, SpacedSeparator) then SplitOnce(inner, SpacedSeparator)
          else if Contains(inner, TightSeparator) then SplitOnce(inner, TightSeparator)
          else SplitOnce(inner, ",")
        else
          SplitOnce(line, ",");
      if |parts| == 2 then AcceptFields(parts[0], parts[1]) else None
    else
      None
  }

  // ---------------------------------------------------------------------
  // Properties of the line rule
  // ---------------------------------------------------------------------

  /** Blank lines give nothing, and a line that holds one of the quoted
      separators gives a song only when cutting at that separator gives
      exactly two parts. */
  lemma LineSkips(raw: string)
    ensures Strip(raw) == [] ==> ParseLine(raw) == None
    ensures Contains(Strip(raw), SpacedSeparator) && |Split(Strip(raw), SpacedSeparator)| != 2 ==> ParseLine(raw) == None
    ensures (!Contains(Strip(raw), SpacedSeparator) && Contains(Strip(raw), TightSeparator)
             && |Split(Strip(raw), TightSeparator)| != 2) ==> ParseLine(raw) == None
  {
  }

  /** A line without a comma gives nothing. */
  lemma NoCommaSkipped(raw: string)
    requires !Contains(raw, ",")
    ensures ParseLine(raw) == None
  {
    var line := Strip(raw);
    var k := StripSpec(raw);
    NotContainsInfix(raw, ",", k, k + |line|);
    NotContainsWider(line, ',', SpacedSeparator, 1);
    NotContainsWider(line, ',', TightSeparator, 1);
  }

  /** Removing the outer quotes of a line that has a comma but neither quoted
      separator leaves a text with a comma and still neither separator. */
  lemma UnquotedText(line: string)
    requires !Contains(line, SpacedSeparator) && !Contains(line, TightSeparator)
    requires Contains(line, ",") && StartsWith(line, "\"") && EndsWith(line, "\"")
    ensures !Contains(InnerOf(line), SpacedSeparator) && !Contains(InnerOf(line), TightSeparator)
    ensures Contains(InnerOf(line), ",")
  {
    InnerKeepsComma(line);
    NotContainsInfix(line, SpacedSeparator, 1, |line| - 1);
    NotContainsInfix(line, TightSeparator, 1, |line| - 1);
  }

  /** The comma of a quoted line lies strictly between its quotes. */
  lemma InnerKeepsComma(line: string)
    requires Contains(line, ",") && StartsWith(line, "\"") && EndsWith(line, "\"")
    ensures |line| >= 2 && Contains(InnerOf(line), ",")
  {
    var c := IndexOf(line, ",", 0).value;
    assert line[c] == ',' by {
      assert line[c..c + 1] == ",";
    }
    assert line[0] == '"' by {
      assert line[..1] == "\"";
    }
    assert line[|line| - 1] == '"' by {
      assert line[|line| - 1..] == "\"";
    }
    var inner := line[1..|line| - 1];
    assert inner[c - 1] == ',';
    assert OccursAt(inner, ",", c - 1) by {
      assert inner[c - 1..c] == [inner[c - 1]];
    }
  }

  /** In the third case of the line rule (a comma but neither quoted
      separator) the re-tests on the unquoted text can never succeed, and the
      line is always cut in two at its first comma: the song is the cleaned
      pair around that comma, with the outer quotes removed first when the
      line has them at both ends. */
  lemma BareCommaLine(raw: string)
    requires !Contains(Strip(raw), SpacedSeparator) && !Contains(Strip(raw), TightSeparator)
    requires Contains(Strip(raw), ",")
    ensures var line := Strip(raw);
      var text := if StartsWith(line, "\"") && EndsWith(line, "\"") then InnerOf(line) else line;
      Contains(text, ",") &&
      ParseLine(raw) == AcceptFields(SplitOnce(text, ",")[0], SplitOnce(text, ",")[1])
  {
    var line := Strip(raw);
    if StartsWith(line, "\"") && EndsWith(line, "\"") {
      UnquotedText(line);
      QuotedCommaLine(raw);
    } else {
      PlainCommaLine(raw);
    }
  }

  /** The unquoted sub-case of BareCommaLine. */
  lemma PlainCommaLine(raw: string)
    requires !Contains(Strip(raw), SpacedSeparator) && !Contains(Strip(raw), TightSeparator)
    requires Contains(Strip(raw), ",")
    requires !(StartsWith(Strip(raw), "\"") && EndsWith(Strip(raw), "\""))
    ensures ParseLine(raw) == AcceptFields(SplitOnce(Strip(raw), ",")[0], SplitOnce(Strip(raw), ",")[1])
  {
    assert Strip(raw) != [];
  }

  /** The quoted sub-case of BareCommaLine. */
  lemma QuotedCommaLine(raw: string)
    requires !Contains(Strip(raw), SpacedSeparator) && !Contains(Strip(raw), TightSeparator)
    requires Contains(Strip(raw), ",")
    requires StartsWith(Strip(raw), "\"") && EndsWith(Strip(raw), "\"")
    requires !Contains(InnerOf(Strip(raw)), SpacedSeparator) && !Contains(InnerOf(Strip(raw)), TightSeparator)
    requires Contains(InnerOf(Strip(raw)), ",")
    ensures ParseLine(raw) == AcceptFields(SplitOnce(InnerOf(Strip(raw)), ",")[0], SplitOnce(InnerOf(Strip(raw)), ",")[1])
  {
    assert Strip(raw) != [];
  }

  // ---------------------------------------------------------------------
  // Round trip with the chunk writer
  // ---------------------------------------------------------------------

  /** A song the chunk writer can write and the readers read back unchanged:
      acceptable, and without double quotes. */
  predicate Writable(s: Song) {
    Acceptable(s) && QuoteFree(s.artist) && QuoteFree(s.track)
  }

  /** The line the chunk writer emits for a song: "artist", "track" and a newline. */
  function ChunkLine(s: Song): string {
    "\"" + s.artist + SpacedSeparator + s.track + "\"" + "\n"
  }

  /** A field that cleaning leaves as it is: non-empty, no whitespace and no
      double quote at either end. */
  predicate CleanField(field: string) {
    field != [] && Trimmed(field) && field[0] != '"' && field[|field| - 1] != '"'
  }

  /** strip('"') of a clean field changes nothing. */
  lemma QuotesKept(field: string)
    requires CleanField(field)
    ensures StripChar(field, '"') == field
  {
    TrimStartKeeps(field, Only('"'));
    TrimEndKeeps(field, Only('"'));
  }

  /** strip('"') removes a double quote put before a clean field. */
  lemma LeadingQuoteDropped(field: string)
    requires CleanField(field)
    ensures StripChar("\"" + field, '"') == field
  {
    var q := "\"" + field;
    assert q[1..] == field;
    TrimStartKeeps(field, Only('"'));
    TrimEndKeeps(field, Only('"'));
  }

  /** strip('"') removes a double quote put after a clean field. */
  lemma TrailingQuoteDropped(field: string)
    requires CleanField(field)
    ensures StripChar(field + "\"", '"') == field
  {
    var q := field + "\"";
    TrimStartKeeps(q, Only('"'));
    assert q[..|q| - 1] == field;
    TrimEndKeeps(field, Only('"'));
  }

  /** Cleaning a clean field changes nothing. */
  lemma CleanBare(field: string)
    requires CleanField(field)
    ensures Clean(field) == field
  {
    StripTrimmed(field);
    QuotesKept(field);
  }

  /** Cleaning a clean field preceded by a double quote gives back the field. */
  lemma CleanLeadingQuote(field: string)
    requires CleanField(field)
    ensures Clean("\"" + field) == field
  {
    var q := "\"" + field;
    assert q[|q| - 1] == field[|field| - 1];
    StripTrimmed(q);
    LeadingQuoteDropped(field);
    StripTrimmed(field);
  }

  /** Cleaning a clean field followed by a double quote gives back the field. */
  lemma CleanTrailingQuote(field: string)
    requires CleanField(field)
    ensures Clean(field + "\"") == field
  {
    var q := field + "\"";
    assert q[0] == field[0];
    StripTrimmed(q);
    TrailingQuoteDropped(field);
    StripTrimmed(field);
  }

  /** strip() of a trimmed non-empty text followed by a newline removes just the newline. */
  lemma StripNewline(text: string)
    requires text != [] && Trimmed(text)
    ensures Strip(text + "\n") == text
  {
    var t := text + "\n";
    assert t[0] == text[0];
    TrimStartKeeps(t, Whitespace);
    assert IsSpace(t[|t| - 1]) && t[..|t| - 1] == text;
    assert TrimEnd(t, Whitespace) == TrimEnd(text, Whitespace);
    TrimEndKeeps(text, Whitespace);
  }

  /** A text without double quotes. */
  predicate QuoteFree(text: string) {
    forall i :: 0 <= i < |text| ==> text[i] != '"'
  }

  /** The spaced separator first occurs right after the artist in the chunk
      line of a clean, quote-free artist. */
  lemma FirstSeparatorAfterArtist(a: string, t: string)
    requires CleanField(a) && QuoteFree(a)
    ensures IndexOf("\"" + a + SpacedSeparator + t + "\"", SpacedSeparator, 0) == Some(|a| + 1)
  {
    var line := "\"" + a + SpacedSeparator + t + "\"";
    var p := |a| + 1;
    assert line[p..p + 4] == SpacedSeparator;
    forall j | 0 <= j < p ensures !OccursAt(line, SpacedSeparator, j) {
      WindowBeforeSeparator(a, t, j);
    }
    assert OccursAt(line, SpacedSeparator, p);
  }

  /** No window starting inside the quoted artist spells the spaced separator. */
  lemma WindowBeforeSeparator(a: string, t: string, j: nat)
    requires CleanField(a) && QuoteFree(a) && j < |a| + 1
    ensures !OccursAt("\"" + a + SpacedSeparator + t + "\"", SpacedSeparator, j)
  {
    var line := "\"" + a + SpacedSeparator + t + "\"";
    var w := line[j..j + 4];
    var sep := SpacedSeparator;
    assert sep[0] == '"' && sep[2] == ' ' && sep[3] == '"';
    if j > 0 {
      assert w[0] == a[j - 1] && a[j - 1] != '"';
      assert w[0] != sep[0];
    } else if |a| >= 3 {
      assert w[3] == a[2] && a[2] != '"';
      assert w[3] != sep[3];
    } else if |a| == 2 {
      assert w[2] == a[1] && !IsSpace(a[1]);
      assert w[2] != sep[2];
    } else {
      assert w[2] == '"';
      assert w[2] != sep[2];
    }
  }

  /** A quote-free track followed by its closing quote holds no spaced separator. */
  lemma NoSeparatorAfterArtist(t: string)
    requires QuoteFree(t)
    ensures Split(t + "\"", SpacedSeparator) == [t + "\""]
  {
    var rest := t + "\"";
    forall j | 0 <= j ensures !OccursAt(rest, SpacedSeparator, j) {
      WindowInTrack(t, j);
    }
    assert IndexOf(rest, SpacedSeparator, 0).None?;
  }

  /** No window of a quote-free track and its closing quote spells the
      spaced separator: its first character would be a quote. */
  lemma WindowInTrack(t: string, j: nat)
    requires QuoteFree(t)
    ensures !OccursAt(t + "\"", SpacedSeparator, j)
  {
    var rest := t + "\"";
    if j + 4 <= |rest| {
      assert rest[j] == t[j] && t[j] != '"';
      assert rest[j..j + 4][0] == rest[j];
      assert SpacedSeparator[0] == '"';
    }
  }

  /** The chunk line without its newline is what strip() leaves of it. */
  lemma ChunkLineStripped(a: string, t: string)
    requires CleanField(a) && CleanField(t)
    ensures Strip(ChunkLine(Song(a, t))) == "\"" + a + SpacedSeparator + t + "\""
  {
    var line := "\"" + a + SpacedSeparator + t + "\"";
    assert ChunkLine(Song(a, t)) == line + "\n";
    StripNewline(line);
  }

  /** The chunk line of two clean, quote-free fields, stripped, is cut by the
      spaced separator into the two quoted fields. */
  lemma ChunkLineParts(a: string, t: string)
    requires CleanField(a) && CleanField(t) && QuoteFree(a) && QuoteFree(t)
    ensures var line := "\"" + a + SpacedSeparator + t + "\"";
      Strip(ChunkLine(Song(a, t))) == line && Contains(line, SpacedSeparator) &&
      Split(line, SpacedSeparator) == ["\"" + a, t + "\""]
  {
    ChunkLineStripped(a, t);
    CutAtArtist(a, t);
  }

  lemma CutAtArtist(a: string, t: string)
    requires CleanField(a) && QuoteFree(a) && QuoteFree(t)
    ensures var line := "\"" + a + SpacedSeparator + t + "\"";
      Contains(line, SpacedSeparator) && Split(line, SpacedSeparator) == ["\"" + a, t + "\""]
  {
    var line := "\"" + a + SpacedSeparator + t + "\"";
    FirstSeparatorAfterArtist(a, t);
    var p := |a| + 1;
    assert line[p + 4..] == t + "\"";
    assert line[..p] == "\"" + a;
    NoSeparatorAfterArtist(t);
  }

  /** The acceptance test sees only the cleaned fields. */
  lemma AcceptSameCleaned(x: string, y: string, x': string, y': string)
    requires Clean(x) == Clean(x') && Clean(y) == Clean(y')
    ensures AcceptFields(x, y) == AcceptFields(x', y')
  {
  }

  /** The chunk line of two clean, quote-free fields is cut back into those
      two fields: the line rule then decides on exactly that pair. */
  lemma ChunkLineFields(a: string, t: string)
    requires CleanField(a) && CleanField(t) && QuoteFree(a) && QuoteFree(t)
    ensures ParseLine(ChunkLine(Song(a, t))) == AcceptFields(a, t)
  {
    ChunkLineParts(a, t);
    CleanLeadingQuote(a);
    CleanTrailingQuote(t);
    CleanBare(a);
    CleanBare(t);
    AcceptSameCleaned("\"" + a, t + "\"", a, t);
  }

  /** The fields of a writable song pass the acceptance test unchanged. */
  lemma FieldsRoundTrip(s: Song)
    requires Writable(s)
    ensures AcceptFields(s.artist, s.track) == Some(s)
  {
    assert CleanField(s.artist) && CleanField(s.track);
    CleanBare(s.artist);
    CleanBare(s.track);
    var r := AcceptFields(s.artist, s.track);
    assert Song(Clean(s.artist), Clean(s.track)) == s;
    assert Acceptable(s);
    assert r.Some?;
  }

  /** The fallback reader recovers every writable song from the line the
      chunk writer emits for it. */
  lemma ChunkLineRoundTrip(s: Song)
    requires Writable(s)
    ensures ParseLine(ChunkLine(s)) == Some(s)
  {
    assert CleanField(s.artist) && CleanField(s.track);
    ChunkLineFields(s.artist, s.track);
    FieldsRoundTrip(s);
  }

  /** The row reader recovers every writable song from the row csv.reader
      gives for its chunk line (any further fields are ignored). */
  lemma RowRoundTrip(s: Song, extra: seq<string>)
    requires Writable(s)
    ensures ParseRow([s.artist, s.track] + extra) == Some(s)
  {
    var row := [s.artist, s.track] + extra;
    assert row[0] == s.artist && row[1] == s.track;
    FieldsRoundTrip(s);
  }

  /** A word that lower-cases to a word of lower-case ASCII letters is a clean,
      quote-free field. */
  lemma LetterWord(w: string, word: string)
    requires LowerEquals(w, word) && word != []
    requires forall i :: 0 <= i < |word| ==> 'a' <= word[i] <= 'z'
    ensures CleanField(w) && QuoteFree(w)
  {
    assert forall i :: 0 <= i < |w| ==> 'a' <= LowerChar(w[i]) <= 'z';
  }

  /** The header the chunk writer puts first is never read as a song, by
      either reader, whatever the case of its letters. */
  lemma HeaderSkipped(a: string, t: string)
    requires LowerEquals(a, "artist") && LowerEquals(t, "track")
    ensures ParseRow([a, t]) == None
    ensures ParseLine(ChunkLine(Song(a, t))) == None
  {
    LetterWord(a, "artist");
    LetterWord(t, "track");
    CleanBare(a);
    CleanBare(t);
    assert IsHeader(Clean(a), Clean(t));
    ChunkLineFields(a, t);
  }

  // ---------------------------------------------------------------------
  // The two reading loops
  // ---------------------------------------------------------------------

  /** The songs read_csv_file appends: the rows that pass the row rule, in order. */
  function RowSongs(rows: seq<seq<string>>): (songs: seq<Song>)
    ensures |songs| <= |rows|
    ensures AllAcceptable(songs)
  {
    if rows == [] then []
    else
      var front := RowSongs(rows[..|rows| - 1]);
      match ParseRow(rows[|rows| - 1])
      case Some(s) => front + [s]
      case None => front
  }

  /** The songs read_csv_alternative appends: the lines that pass the line rule, in order. */
  function LineSongs(lines: seq<string>): (songs: seq<Song>)
    ensures |songs| <= |lines|
    ensures AllAcceptable(songs)
  {
    if lines == [] then []
    else
      var front := LineSongs(lines[..|lines| - 1]);
      match ParseLine(lines[|lines| - 1])
      case Some(s) => front + [s]
      case None => front
  }

  /** read_csv_file on the rows csv.reader produces: every row that passes
      the row rule, in file order; nothing when the file cannot be found. */
  method ReadCsvFile(file: Option<seq<seq<string>>>) returns (songs: seq<Song>)
    ensures songs == (if file.None? then [] else RowSongs(file.value))
    ensures AllAcceptable(songs)
  {
    songs := [];
    if file.None? {
      return;
    }
    var rows := file.value;
    for n := 0 to |rows|
      invariant songs == RowSongs(rows[..n])
    {
      assert rows[..n + 1][..n] == rows[..n];
      match ParseRow(rows[n]) {
        case Some(s) => songs := songs + [s];
        case None =>
      }
    }
    assert rows[..|rows|] == rows;
  }

  /** read_csv_alternative on the lines of the file: every line that passes
      the line rule, in file order; nothing when the file cannot be opened. */
  method ReadCsvAlternative(file: Option<seq<string>>) returns (songs: seq<Song>)
    ensures songs == (if file.None? then [] else LineSongs(file.value))
    ensures AllAcceptable(songs)
  {
    songs := [];
    if file.None? {
      return;
    }
    var lines := file.value;
    for n := 0 to |lines|
      invariant songs == LineSongs(lines[..n])
    {
      assert lines[..n + 1][..n] == lines[..n];
      match ParseLine(lines[n]) {
        case Some(s) => songs := songs + [s];
        case None =>
      }
    }
    assert lines[..|lines|] == lines;
  }
}
