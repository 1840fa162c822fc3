# Model of the AviUtl2 bridge

A verified model, in Dafny 4.11, of the parts of the bridge between an IPC client and the AviUtl2 video
editor whose correctness rests on more than one function: the track-value notation, the bytes that are
fingerprinted, the frame decoder, the settings document with its caching reader, the text escapes, the
admission of raw aliases, and the tables laid over each other. `dafny verify dfyconfig.toml` checks it all.

The model follows the shape of the code. What the code does by updating state is a class or a method with
a loop (the frame decoder, the fingerprint buffer, the settings document and its reader, the facet table,
the memo over effect names, the explicit-stack walks, the escape loops, the help parser), proved equal to a
specification function or predicate. What the code writes as expressions is a function. The results about
the specification are lemmas.

| file | what it models |
|---|---|
| `Decimals.dfy`, `NumberSpellings.dfy`, `Numerals.dfy`, `Bytes.dfy`, `Strings.dfy` | the library text and byte forms the rest stands on: numbers as text and what the text denotes, little-endian, UTF-8, trim and split |
| `Sequences.dfy`, `Wrappers.dfy`, `MachineIntegers.dfy`, `DataModel.dfy` | shared lemmas, result types, integer widths and the item values |
| `TextCodec.dfy`, `Validation.dfy` | host text escapes and the validators of edit input |
| `TrackValues.dfy`, `TrackLines.dfy`, `ItemValues.dfy` | the track line, what the decoder makes of any line, and preparing, echoing and comparing an item write |
| `Fingerprint.dfy`, `FingerprintLayout.dfy` | the canonical bytes of objects and effects, and a reader of them |
| `Framing.dfy` | the stream decoder, the encoder, and pull-driven reading |
| `Budget.dfy`, `Settings.dfy`, `SettingsIssues.dfy`, `SettingsReader.dfy`, `SortedNames.dfy` | scaled budgets, the settings document, what it reports, and the stamp-keyed cache |
| `Alias.dfy`, `ItemFacets.dfy`, `EffectHelp.dfy`, `Page.dfy` | alias admission, the facet overlay, the help file, pagination |

## Where the code falls short of its own promise

These are results of the model, each with a concrete witness and the exact condition under which the
promise holds.

- **Oversized frames.** The encoder promises bodies of 1 byte to 8 MiB, but casts the length to 32 bits
  before it checks it (`crates/core/src/framing.rs:172-184`). The promise holds exactly for lengths that the
  cast does not bring back under the limit (`Framing.EncodeRefusesExactly`); a 4 GiB body is let through with
  a header no decoder accepts (`Framing.OversizedBodyIsEncoded`).
- **Handoff lifetime.** The floor of the handoff time is meant to cover the scaled render budget, but is cut
  to whole seconds (`crates/core/src/settings.rs:620-635`). `Settings.HandoffOutlivesRender` gives the
  documents that fall short, by less than a second: exactly those whose percentage is over 100 and no
  multiple of ten, and which name a handoff time no longer than the whole seconds of that budget. A document
  that leaves the time to its default never does. `Settings.HandoffFallsShort` is one that does.
- **Reading back an expression.** The comparison of a written and an observed track sees the presence of the
  expression but not its text (`crates/core/src/track_value.rs:668-676`). It vouches for the expression of
  exactly the movements written without one (`TrackValues.ReadBackTrusted`);
  `TrackValues.ReadBackMissesExpressionText` gives two different lines it takes for the same movement, and
  `TrackValues.ReadBackMeaning` all that it does see.
- **Lists past 2^32 items.** Following `next_offset` collects exactly the list if and only if it has at most
  2^32 items (`Page.WalkMeaning`); beyond that the saturated offset repeats an item or never ends
  (`Page.StuckPages`).

## Beyond the shipped budgets

The code scales only its own table, and `Budget.ShippedIsAccepted` shows that safe at every 32-bit percentage
but zero. `Budget.ScalingKeepsSums` is about any table in whole milliseconds: the inequalities between sums
survive although every term is truncated on its own. Since the multiplication saturates, that needs the
scaled limit to fit in 64 bits, and `Budget.SumsSurviveExactly` shows this hypothesis to be exact.

## Model

| member | source | states |
|---|---|---|
| Decimals.ParsePrinted | crates/core/src/track_value.rs:635-638 | parsing the printed form of any finite number gives that number back |
| Numerals.NatOfConcat | crates/core/src/track_value.rs:635-638 | digits are positional: what stands before a numeral counts as many powers of ten more as it has digits |
| Numerals.ParseU32Meaning | crates/core/src/track_value.rs:570-573 | a flag text reads as a number iff it is that number in digits, with or without a plus sign, below 2^32 |
| Strings.TrimBetween | crates/core/src/track_value.rs:636 | trimming takes off the whitespace on both sides |
| Strings.TrimParts | crates/core/src/track_value.rs:636 | every text is what trimming leaves of it, between whitespace |
| Strings.CharacterClasses | crates/core/src/validation.rs:189-213 | the control characters and the whitespace by code point |
| NumberSpellings.SpellingIsRead | crates/core/src/track_value.rs:635-638 | every spelling, with zeros, a point, an exponent and whitespace wherever they may stand, is read as the number of its sign and value, or refused when that is too large |
| NumberSpellings.ReadIsSpelling | crates/core/src/track_value.rs:635-638 | nothing but spellings is read |
| NumberSpellings.ParseMeaning | crates/core/src/track_value.rs:635-638 | a text reads as a number iff it spells that number, sign of zero included |
| NumberSpellings.ParseRefusal | crates/core/src/track_value.rs:635-638 | a text reads as no number iff it spells none, or one past the finite ones |
| NumberSpellings.SizeDetermines | crates/core/src/track_value.rs:635-638 | numbers of one size have one canonical form |
| NumberSpellings.SameNumberMeaning | crates/core/src/track_value.rs:668-676 | numbers compare equal iff their values are equal |
| NumberSpellings.SameNumbersMeaning | crates/core/src/track_value.rs:668-676 | lists compare equal iff they have the same values in the same places |
| NumberSpellings.PrintedForm | crates/core/src/track_value.rs:464-470 | numbers are printed without exponent, plus sign or whitespace, with a point only ahead of a fraction |
| TextCodec.EncodeHostText | crates/core/src/text_codec.rs:23-33 | the push loop computes the character-wise escape |
| TextCodec.DecodeHostText | crates/core/src/text_codec.rs:43-62 | the iterator loop, with its lone and unknown backslashes, computes the total decoding |
| TextCodec.DecodeEncode | crates/core/src/text_codec.rs:23-62 | decoding undoes encoding on every string |
| TextCodec.EncodeDecode | crates/core/src/text_codec.rs:23-62 | encoding undoes decoding on every single line whose backslashes are all paired |
| TextCodec.EncodeMeaning | crates/core/src/text_codec.rs:23-33 | what is written for each character |
| TextCodec.DecodeMeaning | crates/core/src/text_codec.rs:43-62 | what is read for each escape, for a backslash before anything else, and for every other character |
| TextCodec.EncoderImage | crates/core/src/validation.rs:328-340 | a string is written by the encoder iff it has no line feed and the independent validator accepts it, iff encoding its decoding gives it back |
| TextCodec.MultilinePipeline | crates/core/src/item_value.rs:756-761 | an encoded multi-line value has no CR or LF, decodes to the value with CRLF unified, and is reproduced when the decoded text is encoded again |
| TextCodec.UnifyAt | crates/core/src/item_value.rs:758 | a CRLF becomes a line feed wherever it stands |
| TextCodec.UnifyNothing | crates/core/src/item_value.rs:758 | a text without CRLF is left as it is |
| TextCodec.MultilineAccepted | crates/core/src/item_value.rs:756-761 | the accepted texts: no control character but tab and line ends, no lone CR, at most 8192 bytes once encoded |
| Validation.RejectLoneCarriageReturn | crates/core/src/validation.rs:253-261 | the scan refuses exactly the strings with a CR that no LF follows |
| Validation.ValidateAliasTextEscapes | crates/core/src/validation.rs:328-340 | the scan accepts exactly the strings whose backslashes pair up from the left |
| Validation.PathMeaning | crates/core/src/validation.rs:376-404 | the accepted paths: a drive letter, a colon, a separator, and no other colon, NUL or excess length |
| Validation.PathRefusals | crates/core/src/validation.rs:389-404 | which of the remaining reasons a path is refused for, read off its characters |
| Validation.Utf16UnitsMeaning | crates/core/src/validation.rs:383-386 | characters past the sixteen-bit ones count twice |
| TrackValues.EncodeTrackValue | crates/core/src/track_value.rs:460-494 | the push loops and the checks before and after them give exactly the specified line or refusal |
| TrackValues.FlagsRoundTrip | crates/core/src/track_value.rs:307-314 | each named flag, the expression's presence and the reserved bits can be read back off the flag integer |
| TrackValues.DecodeIffSpelled | crates/core/src/track_value.rs:544-633 | a line decodes to a movement iff it is one of the spellings the grammar gives that movement: the right-to-left parser and the grammar agree on every string |
| TrackValues.DecodeSpelled | crates/core/src/track_value.rs:544-633 | every spelling of a movement is read as that movement |
| TrackValues.DecodedIsSpelled | crates/core/src/track_value.rs:544-633 | nothing but a spelling of the returned movement is read |
| TrackLines.DecodeMeaning | crates/core/src/track_value.rs:544-633 | the answer to every line: the track it spells, the reason a movement is not representable, or that it is no movement, each an iff over the grammar |
| TrackLines.DecodeTooFewValues | crates/core/src/track_value.rs:586-588 | too few values is the answer iff the line has a readable mode, flags, the sections they ask for, and one value that reads |
| TrackLines.DecodeNoExpression | crates/core/src/track_value.rs:617-632 | a missing expression is the answer iff the flags ask for one and the first section is missing, empty or holds a control character, whatever the values are |
| TrackLines.DecodeStill | crates/core/src/track_value.rs:549-566 | a line is a still track iff it is one number and nothing else |
| TrackLines.Layout | crates/core/src/track_value.rs:545-549 | every line is fields joined by commas and sections after the first bar |
| TrackValues.ParseAllMeaning | crates/core/src/track_value.rs:579-585 | the fields are read one by one and all must read |
| TrackValues.ParseParamsMeaning | crates/core/src/track_value.rs:589-595 | parameters are comma-separated numbers; no section and an empty one are none |
| TrackLines.SyntaxMeaning | crates/core/src/track_value.rs:335-379 | the tracks the writer accepts on their own, listed by what they hold |
| TrackLines.SyntaxRefusals | crates/core/src/track_value.rs:335-379 | the first broken rule and its reason, for a movement |
| TrackLines.StillRefusals | crates/core/src/track_value.rs:335-379 | the first broken rule and its reason, for a still track |
| TrackLines.TargetRefusals | crates/core/src/track_value.rs:401-427 | the first thing a target refuses, and the reason |
| TrackLines.EncodeRefusals | crates/core/src/track_value.rs:460-494 | a write is refused for the track, and after that only for the length of its line |
| TrackValues.FindMovementMeaning | crates/core/src/track_value.rs:415-426 | the first movement of a name decides |
| TrackValues.DecodeEncoded | crates/core/src/track_value.rs:460-607 | whenever encoding succeeds, decoding the line returns the very same value: values, mode, parameters, flags, reserved bits, expression |
| TrackValues.DecodePrinted | crates/core/src/track_value.rs:549-566 | the text of a number is read as a track that does not move |
| TrackValues.EncodeInjective | crates/core/src/track_value.rs:460-494 | two values written as the same line are the same value, whatever their targets |
| TrackValues.DecodedMeetsSyntax | crates/core/src/track_value.rs:335-379 | everything the decoder returns meets the writer's syntax rules, the byte limits on its two texts being the only exception |
| TrackValues.DecodedKeepsFlagInteger | crates/core/src/track_value.rs:570-607 | the flag integer in the line is the one the decoded value would print |
| TrackValues.EncodeSucceeds | crates/core/src/track_value.rs:401-427 | a write succeeds iff the syntax, the target and the length of the line all allow it |
| TrackValues.DecodedIsWritable | crates/core/src/track_value.rs:536-541 | a decoded value can be written back iff the target takes it and its line is short enough |
| TrackValues.EncodeIsNormalForm | crates/core/src/track_value.rs:460-607 | writing a decoded value normalises its line: same value, stable under a second pass, and accepted by the read-back comparison |
| TrackValues.ReadBackMeaning | crates/core/src/track_value.rs:668-676 | the comparison holds iff values, mode, every flag, the reserved bits, the presence of the expression and (if any were written) the parameters agree |
| TrackValues.ReadBackTrusted | crates/core/src/track_value.rs:668-676 | a match settles the expression of the observed movement iff the written one has no expression |
| TrackValues.ReadBackIgnoresExpressionText | crates/core/src/track_value.rs:668-676 | replacing the text of an expression is never noticed |
| TrackValues.ReadBackMissesExpressionText | crates/core/src/track_value.rs:668-676 | two concrete lines decode to different movements and still match |
| Fingerprint.FingerprintInput.WriteField | crates/core/src/fingerprint.rs:120-127 | the buffer is extended by the two length-prefixed parts of one field |
| Fingerprint.FingerprintInput.WriteOptionalText | crates/core/src/fingerprint.rs:159-164 | an optional text is a presence flag, then the text if there is one |
| Fingerprint.FingerprintInput.WriteItemValue | crates/core/src/fingerprint.rs:177-240 | the writer appends the tag and payload fields of each of the eleven variants |
| Fingerprint.FingerprintInput.WriteTrackInfo | crates/core/src/fingerprint.rs:243-260 | the writer appends the presence flag and the fields of the track information |
| Fingerprint.EffectFingerprintBytes | crates/core/src/fingerprint.rs:346-366 | the loop over items builds exactly the specified stream |
| Fingerprint.ObjectFingerprintBytes | crates/core/src/fingerprint.rs:330-340 | the writer builds exactly the specified stream |
| Fingerprint.SerializeInjective | crates/core/src/fingerprint.rs:107-127 | equal byte streams come from equal field lists: no content can imitate a field boundary |
| FingerprintLayout.CutSerialized | crates/core/src/fingerprint.rs:107-127 | a reader that knows only the length prefixes gets every name and value back, in order |
| Bytes.EightBytes | crates/core/src/fingerprint.rs:120-127 | eight bytes are worth their value with the least significant first |
| Bytes.LeadingCodePointOf | crates/core/src/fingerprint.rs:129-131 | the bytes of a character decode to its code point |
| FingerprintLayout.ObjectLayout | crates/core/src/fingerprint.rs:330-340 | which field stands where in the stream of an object, under which name, with what text |
| FingerprintLayout.HeaderLayout | crates/core/src/fingerprint.rs:346-355 | the same for the start of an effect |
| FingerprintLayout.ItemsLayout | crates/core/src/fingerprint.rs:356-364 | items stand one behind the other in their order |
| FingerprintLayout.ItemLayout | crates/core/src/fingerprint.rs:357-363 | the parts of an item and where they stand |
| FingerprintLayout.ScalarLayout | crates/core/src/fingerprint.rs:177-240 | the field of each value that is no track |
| FingerprintLayout.KindNamesPayload | crates/core/src/item_value.rs:104-118 | the kind written ahead of a value is the name its fields go by |
| FingerprintLayout.TrackLayout | crates/core/src/fingerprint.rs:177-240 | the fields of a track and where they stand, optional ones shifting the rest |
| FingerprintLayout.TrackInfoLayout | crates/core/src/fingerprint.rs:243-260 | the fields of the track information and where they stand |
| FingerprintLayout.NamesReadBack | crates/core/src/effect.rs:514-591 | the name of a type is the one it is read back from |
| Fingerprint.OptionalTextPrefix | crates/core/src/fingerprint.rs:156-164 | absent and present texts are told apart, and what follows them lines up |
| Fingerprint.CountedNumbersPrefix | crates/core/src/fingerprint.rs:249-252 | counted lists of numbers are told apart up to the sign of zero, and what follows them lines up |
| Fingerprint.KindNameInjective | crates/core/src/effect.rs:514-544 | two item types with one kind name are the same type, unknown raw values included |
| Fingerprint.EffectBytesInjective | crates/core/src/fingerprint.rs:346-366 | the bytes of two effects are equal iff the effects are, every list, tag and optional included, with the two zeros identified |
| Fingerprint.ObjectBytesInjective | crates/core/src/fingerprint.rs:330-340 | the bytes of two objects are equal iff the objects are |
| Fingerprint.ObjectIsNeverEffect | crates/core/src/fingerprint.rs:330-366 | no object has the bytes of any effect |
| Framing.FrameDecoder.constructor | crates/core/src/framing.rs:59-68 | a new decoder holds nothing |
| Framing.FrameDecoder.BytesNeeded | crates/core/src/framing.rs:81-86 | the distance to the end of the header or body being read |
| Framing.FrameDecoder.Feed | crates/core/src/framing.rs:92-134 | whatever was held, a chunk queues the frames, keeps the rest and reports the error that the one-shot parser finds in held bytes and chunk together |
| Framing.FrameDecoder.TakeFrame | crates/core/src/framing.rs:136-138 | frames come out first in, first out, and nothing held is disturbed |
| Framing.FrameDecoder.End | crates/core/src/framing.rs:144-152 | the end is clean iff no frame is half read, and queued frames stay |
| Framing.FrameDecoder.Reset | crates/core/src/framing.rs:154-160 | held bytes are dropped and queued frames stay |
| Framing.ParseSplit | crates/core/src/framing.rs:92-134 | parsing a stream in two steps, carrying the rest over, is parsing it at once; an error in the first part decides |
| Framing.HeaderBytes | crates/core/src/framing.rs:99-104 | the header is four bytes, least significant first |
| Framing.HeaderDecides | crates/core/src/framing.rs:104-132 | for every length a stream can start with: zero is an empty payload, over 8 MiB is too large, both refused at the header; anything else waits for its body and goes on behind it |
| Framing.ShortStream | crates/core/src/framing.rs:96-103 | less than a header is held |
| Framing.FeedAllIsParse | crates/core/src/framing.rs:92-134 | feeding chunk after chunk to the one-shot parser, carrying the rest over, gives the frames, rest and error of parsing them joined |
| Framing.FeedChunks | crates/core/src/framing.rs:92-134 | the decoder itself, fed any list of chunks up to the first refused, queues the frames, holds the rest and reports the error of the one-shot parser on held bytes and chunks together, and so answers any length the stream starts with |
| Framing.NeededBytes | crates/core/src/framing.rs:74-86 | bytes up to the number needed never reach into the next frame |
| Framing.EncodeRefusesExactly | crates/core/src/framing.rs:172-184 | the encoder keeps its promised limits iff the cast length is the real one or is refused anyway |
| Framing.EncodedDecodes | crates/core/src/framing.rs:172-184 | an encoded frame decodes to its body iff the body is shorter than 2^32 |
| Framing.OversizedBodyIsEncoded | crates/core/src/framing.rs:172-184 | a body far over the limit that the encoder lets through |
| Framing.ParseEncodedAll | crates/core/src/framing.rs:172-184 | a stream of encoded frames parses to exactly their bodies, in order, with nothing left |
| Framing.DrainStream | crates/core/src/framing.rs:412-438 | the needed-driven loop, whatever its chunk limit, ends with every frame in order and a clean end |
| Framing.ReadFrame | crates/plugin/src/pipe.rs:204-225 | the connection's loop returns the first frame of the stream, or how it failed, and consumes not a byte of the next |
| Framing.FirstFrameMeaning | crates/plugin/src/pipe.rs:204-225 | the first frame is the first the parser finds; without one the stream is refused, closed or cut off |
| Framing.FirstFrameOfSent | crates/plugin/src/pipe.rs:204-231 | what a reader gets from a sender's stream is the first body sent, or a clean close |
| ItemValues.TextStandsFor | crates/core/src/item_value.rs:756-761 | one text is the written line of a multi-line value iff it is an escaped line that decodes to it |
| ItemValues.NumericMeaning | crates/core/src/item_value.rs:353-358 | two texts match as numbers iff they denote one value, however each is spelled |
| ItemValues.CheckMeaning | crates/core/src/item_value.rs:391-397 | each flag reads from exactly two words, whitespace aside |
| ItemValues.IgnoreCaseMeaning | crates/core/src/item_value.rs:352 | colours match iff they differ at most in the case of ASCII letters |
| ItemValues.ReadBackAccepts | crates/core/src/item_value.rs:344-372 | every prepared write is compared, and the comparison accepts exactly the texts that stand for the requested value: spellings of the number, words for the flag, lines that spell a matching track |
| ItemValues.EchoIsAccepted | crates/core/src/item_value.rs:464-483 | every prepared write is compared, and an echo of the written text is accepted, for every item type and value |
| ItemValues.DropsExactlyMovements | crates/core/src/item_value.rs:290-301 | a scalar write over a written track is flagged iff that track moved |
| ItemValues.DropsMeaning | crates/core/src/item_value.rs:262-301 | a scalar over a track bar is flagged iff the current line spells a movement, one with too few values, or one without its expression |
| ItemValues.TakesMeaning | crates/core/src/item_value.rs:571-718 | item by item, the values each type takes |
| ItemValues.PrepareRefusals | crates/core/src/item_value.rs:464-512 | the reason a write is refused for, in the order the reasons are looked at |
| ItemValues.TextRefusals | crates/core/src/item_value.rs:720-773 | which texts and paths an item refuses, the reason for a path before the reason for a text |
| ItemValues.ItemTextRefusals | crates/core/src/validation.rs:189-225 | what a text is refused for: NUL, another control character, more than 8192 bytes |
| ItemValues.FindItemMeaning | crates/core/src/item_value.rs:473-478 | the first item of a name decides |
| ItemValues.EarlyCheckAgrees | crates/core/src/item_value.rs:464-545 | a write is prepared iff the item takes the kind of value and the value passes the check made before the lookup, save that only that check knows the width of integers and only the lookup knows the target of a movement |
| ItemValues.ScalarsDropNothing | crates/core/src/item_value.rs:262-301 | a write over a written scalar is never flagged |
| Alias.ItemTypes.Of | crates/plugin/src/alias.rs:584-599 | the memo answers as the lookup does and asks it at most once for each effect name |
| Alias.LastEntryDecides | crates/plugin/src/alias.rs:589-594 | a name listed more than once has the type of its last entry |
| Alias.NamesListed | crates/plugin/src/alias.rs:589-594 | the collected table holds exactly the listed names |
| Alias.AdmitRow | crates/plugin/src/alias.rs:539-549 | a row is checked as a movement, then as text through the memo |
| Alias.RowRefusals | crates/plugin/src/alias.rs:539-549 | a row fails as a movement before it fails as text, and as text only by its escapes |
| Alias.AdmitRows | crates/plugin/src/alias.rs:524-562 | the explicit-stack walk reports the first failing row of the recursive reading, terminates on every tree, and queries no name twice and none that no row names |
| Alias.PushChildren | crates/plugin/src/alias.rs:550-559 | children pushed in reverse are visited in order before what lies below, and the work left shrinks |
| Alias.FirstRejectionConcat | crates/plugin/src/alias.rs:536-560 | a table's rows decide before anything after them |
| Alias.RowOrigin | crates/plugin/src/alias.rs:531-560 | every row of the reading belongs to a table of the alias, with the dotted path as its heading and the section count of the nearest table that states one |
| Alias.RowReached | crates/plugin/src/alias.rs:531-560 | no row of any table is left out of the reading |
| Alias.ReadingOrder | crates/plugin/src/alias.rs:541-559 | a table's own rows come first, then its subtables in order |
| Alias.FirstRowDecides | crates/plugin/src/alias.rs:540 | a row is looked up by the first of its key |
| Alias.SectionsStated | crates/plugin/src/alias.rs:645-648 | a frame row of n + 1 boundaries states n sections, and one of a single boundary states none |
| Alias.NoSectionsStated | crates/plugin/src/alias.rs:645-648 | a table without a frame row states none |
| Alias.TrackRowMeaning | crates/plugin/src/alias.rs:664-683 | a row passes iff it spells no movement that lacks its expression or values, and the movement it spells, if any, fits its section count and the writable movements |
| Alias.UnrepresentableRows | crates/plugin/src/alias.rs:669-675 | a movement row that cannot be represented is refused under the name of what it lacks |
| Alias.ValuesMatchBoundaries | crates/plugin/src/alias.rs:524-562 | under n + 1 boundaries a writable movement is admitted iff it has n + 1 values |
| Alias.AdmittedIsWritable | crates/plugin/src/alias.rs:650-683 | an admitted movement could be written, up to the length of its line |
| Alias.AdmissionMeaning | crates/plugin/src/alias.rs:524-562 | rows are admitted iff each is admissible on its own |
| Alias.AliasAdmission | crates/plugin/src/alias.rs:524-562 | an alias is admitted iff every row of every table, under the nearest section count, is a movement its target takes or none at all, and has paired escapes if typed as text |
| Alias.RejectionIsFirst | crates/plugin/src/alias.rs:539-549 | a rejection carries the heading, item and cause of the first inadmissible row |
| Alias.CollectEffects | crates/plugin/src/alias.rs:476-487 | the stack walk lists the effect names in the order of a recursive reading |
| Alias.EffectsInOrder | crates/plugin/src/alias.rs:476-487 | a table's own effect comes first, then those of its subtables in order |
| Budget.ScalingKeepsSums | crates/core/src/budget.rs:312-348 | for any base table whose scaled limit fits in 64 bits, an inequality between sums survives scaling although every term is truncated on its own |
| Budget.SumsSurviveExactly | crates/core/src/budget.rs:254-257 | the limits for which that holds for every table are exactly those whose scaled value fits in 64 bits |
| Budget.HeadroomGivesStrict | crates/core/src/budget.rs:341-347 | with positive headroom the strict inequalities follow from the sums |
| Budget.FirstViolationMeaning | crates/core/src/budget.rs:305-309 | no violation is reported iff all seven inequalities hold |
| Budget.FirstViolationIs | crates/core/src/budget.rs:305-309 | the violation reported is the first in the order of the list |
| Budget.SpareMeaning | crates/core/src/budget.rs:312-348 | an inequality holds iff its limit has something to spare |
| Budget.ScaleMeaning | crates/core/src/budget.rs:254-257 | a scaled budget is the percentage, cut to a whole millisecond |
| Budget.UnscaledIsBase | crates/core/src/budget.rs:273-292 | at a hundred percent every budget is its own |
| Budget.ShippedScales | crates/core/src/budget.rs:273-292 | the fifteen shipped budgets at any percentage, none of them ever cut |
| Budget.ShippedIsAccepted | crates/core/src/budget.rs:264-293 | the shipped table is accepted at every 32-bit percentage but zero, where the first strict inequality fails |
| SortedNames.Sorted | crates/core/src/settings.rs:515-517 | the names of a set in increasing order, each once |
| SortedNames.LeqMeaning | crates/core/src/settings.rs:515-517 | the order of the names: a prefix first, then the first differing character |
| Settings.SwitchTools | crates/core/src/settings.rs:506-514 | the loop over the switched tools, in any order, adds the disabled ones, removes the enabled ones and keeps the rest |
| Settings.SettingsDocument.SetGroupValue | crates/core/src/settings.rs:684-698 | one field of a group is written, a group that is no object starts over, and nothing else moves |
| Settings.SettingsDocument.Apply | crates/core/src/settings.rs:505-561 | applying a change in place is the entry-by-entry overlay |
| Settings.ApplyTwice | crates/core/src/settings.rs:505-561 | one change after another gives the document of their right-biased merge |
| Settings.DisjointChangesCommute | crates/core/src/settings.rs:505-561 | changes that speak of different tools and items can be written in either order |
| Settings.UnknownSurvives | crates/core/src/settings.rs:501-505 | unknown top-level fields, unknown fields of a group and unknown disabled tools survive every change |
| Settings.ChangeIsWritten | crates/core/src/settings.rs:505-549 | each numeric and textual item of a change under its own name, and left alone where the change is silent |
| Settings.SwitchesAreWritten | crates/core/src/settings.rs:549-561 | the same for the switches of the agent plugin and the tools |
| Settings.NamesArrayRoundTrip | crates/core/src/settings.rs:701-713 | the names read back from the written array are the names written |
| Settings.ResolveApplied | crates/core/src/settings.rs:573-666 | resolving after a change gives the clamped new values and leaves the other items as they were, the handoff time following the new budget scale |
| Settings.HandoffKept | crates/core/src/settings.rs:620-635 | the handoff time moves only with its own item or the budget scale |
| Settings.ResolveIgnoresPrevious | crates/core/src/settings.rs:577-594 | resolution never consults the previous settings: the clamped percentage always passes the budget check |
| Settings.ResolveIgnoresSchemaVersion | crates/core/src/settings.rs:493-499 | the schema version added on writing resolves to nothing |
| Settings.ResolvedInRange | crates/core/src/settings.rs:573-666 | every document, however broken, resolves inside the documented ranges |
| Settings.NumbersResolved | crates/core/src/settings.rs:573-666 | each numeric item under its own name: taken in its range, moved to the bound outside, the default for anything else |
| Settings.OthersResolved | crates/core/src/settings.rs:701-903 | each flag, the log level and the disabled tools under their own names |
| Settings.EmptyIsDefault | crates/core/src/settings.rs:317-332 | a document that names no item resolves to the defaults of a missing file |
| Settings.HandoffOutlivesRender | crates/core/src/settings.rs:620-635 | the handoff time covers the scaled render budget except for exactly the documents that name a time under the cut of a budget with a fraction of a second; it is never a full second short |
| Settings.HandoffFallsShort | crates/core/src/settings.rs:620-635 | a document whose handoff time is shorter than its render budget |
| SettingsIssues.LookUpGroup | crates/core/src/settings.rs:820-835 | a group is found, absent or no object, and the last is added to the reports unless it is there already |
| SettingsIssues.ReadNumber | crates/core/src/settings.rs:772-814 | the default, the value or the nearest bound, with the report that goes with it |
| SettingsIssues.ReadFlag | crates/core/src/settings.rs:842-864 | the default or the value, with the report that goes with it |
| SettingsIssues.ResolveDocument | crates/core/src/settings.rs:573-666 | reading item by item onto one list gives the resolved settings and the specified reports |
| SettingsIssues.SilentIffClean | crates/core/src/settings.rs:573-666 | nothing is reported iff every known item is absent, null, or of its type and in its range |
| SettingsIssues.IssuesMeaning | crates/core/src/settings.rs:573-666 | an issue is reported iff the document gives cause for it, with the value asked for and the one taken |
| SettingsIssues.NoIssueTwice | crates/core/src/settings.rs:816-835 | whatever the document, no issue is reported twice, even about a group of which several items are read |
| SettingsReader.Reader.RefreshFrom | crates/core/src/settings.rs:991-1021 | one refresh is one step of the cache machine, and its answer tells which step |
| SettingsReader.Reader.Adopt | crates/core/src/settings.rs:1029-1035 | adopting takes over the document's settings and the stamp of its written form |
| SettingsReader.WrittenReadsBack | crates/core/src/settings.rs:493-499 | a written document loads as the settings it resolves to |
| SettingsReader.WrittenForm | crates/core/src/settings.rs:493-499 | the written document holds every field as it stands and fills in the schema version only where there is none |
| SettingsReader.UnknownSurvivesWriting | crates/core/src/settings.rs:490-505 | what a change does not name survives applying, writing and loading |
| SettingsReader.StepCoherent | crates/core/src/settings.rs:991-1035 | every step keeps the settings those of the stamped text and equals the step of the reparsing reader |
| SettingsReader.CacheIsInvisible | crates/core/src/settings.rs:991-1035 | over every run of reads, failures, broken files and adoptions the settings equal those of a reader that reparses every time |
| SettingsReader.LastDocumentDecides | crates/core/src/settings.rs:991-1035 | after any run the settings are those of the last missing file, parsed file or adopted document alone |
| SettingsReader.NothingBrought | crates/core/src/settings.rs:959-1021 | a run that brings no document leaves the defaults |
| SettingsReader.NoSecondLoad | crates/core/src/settings.rs:987-1000 | the same content, or what was just adopted, is not loaded again |
| ItemFacets.OverlayFacets | crates/plugin/src/item_facets.rs:436-457 | the facets of one item after a document, and what is recorded of each mention |
| ItemFacets.FacetTable.OverlayTable | crates/plugin/src/item_facets.rs:427-461 | whatever order the maps are walked in, the table becomes the facet-wise overlay, and the report counts everything the documents mention and lists what was there before, each once |
| ItemFacets.ReportMeaning | crates/plugin/src/item_facets.rs:436-457 | a facet is listed as replaced iff the table mentions it and it was there |
| ItemFacets.LoadTable | crates/plugin/src/item_facets.rs:482-525 | the table is the stack of the built-in layer and the usable sidecars among the first 64; facet by facet, the last sidecar that mentions it decides, as a sidecar, and the built-in table where none does; the three counts are those of the documents |
| ItemFacets.StackIsLoaded | crates/plugin/src/item_facets.rs:482-525 | each facet after loading, from the documents themselves |
| ItemFacets.OverlayFacetsOf | crates/plugin/src/item_facets.rs:418-426 | each facet of each item depends on that facet of that item alone |
| ItemFacets.LastMentionWins | crates/plugin/src/item_facets.rs:418-426 | after any stack of tables a facet holds the value and source of the last table that mentions it, and nothing if that table erases it |
| ItemFacets.NeverMentioned | crates/plugin/src/item_facets.rs:418-426 | a facet no table mentions is absent |
| EffectHelp.ParseHelp | crates/plugin/src/effect_help.rs:153-187 | the one-pass parser holds, for each effect, the first section under its name that says anything, read on its own: first occurrence of a key, comments skipped, nothing across headings |
| EffectHelp.LineByLine | crates/plugin/src/effect_help.rs:156 | a line ends at LF or CRLF |
| EffectHelp.SectionsOfFile | crates/plugin/src/effect_help.rs:156-166 | the sections of a file are its help blocks, each with exactly its own lines |
| EffectHelp.HeadingMeaning | crates/plugin/src/effect_help.rs:157-165 | a section is headed by its name between `[Tips.` and `]` |
| EffectHelp.KeyValueMeaning | crates/plugin/src/effect_help.rs:167-175 | a line that is no comment gives what follows its first equals sign to what precedes it |
| EffectHelp.FirstValueMeaning | crates/plugin/src/effect_help.rs:176-183 | the first line that names a key gives its value |
| EffectHelp.SaysMeaning | crates/plugin/src/effect_help.rs:176-183 | the description stands under its own key, and the items under every other |
| EffectHelp.FirstSectionMeaning | crates/plugin/src/effect_help.rs:193-204 | the first section of a name that says anything is heard |
| EffectHelp.FlushSection | crates/plugin/src/effect_help.rs:193-204 | names already present keep their help, an empty section adds nothing, and any other adds its own name and no more |
| EffectHelp.ReadLine | crates/plugin/src/effect_help.rs:167-183 | a further line extends what the section says and nothing else |
| EffectHelp.UnescapeNewlines | crates/plugin/src/effect_help.rs:222-240 | the iterator loop computes the escape rule, every other backslash kept |
| EffectHelp.UnescapeMeaning | crates/plugin/src/effect_help.rs:222-240 | what is read for each pair and each single character |
| Page.RequestMeaning | crates/core/src/page.rs:50-61 | a request for 1 to 200 items is taken as it is, any other is refused with its limit |
| Page.MetaDescribesPage | crates/core/src/page.rs:172-201 | the metadata tells where the page stands in the list, whether items follow it, and where the next page starts |
| Page.WalkIsPrefix | crates/core/src/page.rs:172-201 | after any number of pages what is collected is the list up to the next offset |
| Page.ShortListsWalk | crates/core/src/page.rs:172-201 | with at most 2^32 items, following the offsets under any valid limits ends with exactly the list |
| Page.StuckPages | crates/core/src/page.rs:204-206 | past that, pages of 128 end with one item too many or never end |
| Page.WalkMeaning | crates/core/src/page.rs:172-206 | following the offsets works for all limits iff the list has at most 2^32 items |
| Page.EditedWalkIsWalk | crates/core/src/page.rs:150-166 | with the revision pinned, a walk under concurrent edits is the walk of one snapshot, or is rejected for naming another revision |
| Page.CompletedWalkIsOneSnapshot | crates/core/src/page.rs:150-166 | a walk completed under any edits is the list as it was at the first page, and an unedited walk completes |

## Left out

- Decimals.ParsePrinted: numbers are decimal text, so IEEE rounding and the choice of the shortest digits are not modelled; a number too large for a finite `f64` is refused at the exact bound.
- ItemValues.ReadBackAccepts: for the same reason two decimals that an `f64` cannot tell apart count as different numbers here.
- Fingerprint.EffectBytesInjective: stops at the bytes handed to SHA-256; numbers are their 64 bits and text lengths and counts are assumed below 2^64, as they are in memory.
- SettingsReader.CacheIsInvisible: the JSON printer and parser are parameters that undo each other, and the stamp is an injective parameter, since a SHA-256 collision is out of scope; file access is reduced to its three outcomes.
- SettingsReader.Reader.RefreshFrom: the counter of loads is unbounded.
- Settings.ResolveApplied: JSON numbers are unsigned, negative or fractional; which of the latter it is makes no difference to the code.
- SettingsIssues.ResolveDocument: the list of reports is handed from item to item rather than borrowed, and the log level and tool list are taken by functions.
- Budget.ScalingKeepsSums: durations are whole milliseconds below 2^64, as every budget constant is; the cast that would wrap above that is not modelled.
- Alias.AdmitRows: starts from the parsed tree; the table parser and the depth limit checked ahead of it are library code. The first row of a key is the one a lookup finds.
- Alias.ItemTypes.Of: the lookup is a function of the name; what the host answers in between is not modelled.
- Framing.ReadFrame: deadlines and transport errors other than the end of the stream are left out.
- Framing.FrameDecoder.Feed: the two branches of the loop are methods of their own; allocation failure is not modelled.
- ItemFacets.LoadTable: finding and sorting sidecar files, their size limit and their JSON shape are left out; the documents arrive parsed or rejected.
- Page.WalkMeaning: `usize` is unbounded, so the saturating addition of offset and limit never saturates.
- Validation.ValidateAliasTextEscapes: the name, alias and path rules of the same file are single predicates; paths are modelled where an item write needs them, the rest is left out.
- JSON lexing, envelopes, serde forms and UTF-8 decoding: library behaviour.
- Handshake, handoff tokens, digests and base64: cryptographic library calls.
- Listing aliases (`list_object_aliases`): its page metadata depends on files that fail to load, which is file access.
- Error codes, machine-readable reasons, operation tables, lifecycle and batch tables, the agent plugin plan: finite tables that would add only easy members.
- Logging, file replacement, registry and the host SDK adapters: calls into systems outside the repository.
