/**
 * The refusal of this client's own key, whose message carries up to two folder paths that are read
 * back from it (src/errors.rs).
 */
module KeyFolderMessage {
  import opened Wrappers
  import opened JsonText

  const HUB_REFUSED: string := "the hub refused this connection's credentials"

  const CLIENT_KEY_REJECTED: string :=
    "it pinned a different Noise key for this client when the connection first connected"

  const KEY_FOLDER: string := ". This client's key is in "

  const OTHER_KEY_FOLDER: string :=
    ". Another program" +
    " that reads the same identity may keep its key in "

  const OTHER_TAIL: string := ", and the hub may have pinned that one"

  /** Sentence by sentence: the proofs look into the first one. */
  const ADVICE: string :=
    ". A new handshake cannot fix this." +
    " Re-pair, or share the key folder: point every program that uses this identity" +
    " at the folder holding the key the hub trusts (set_noise_state_dir)."

  /** The two of the SDK's errors that matter here, and every other one. */
  datatype Error = Connection(message: string) | Other(message: string)

  /** What is written after the fixed opening of a rejected-key message. */
  ghost function Detail(folder: Option<string>, other: Option<string>): string
  {
    match folder
    case None => ADVICE
    case Some(path) => KEY_FOLDER + Quote(path) + OtherDetail(other)
  }

  ghost function OtherDetail(other: Option<string>): string
  {
    match other
    case None => ADVICE
    case Some(path) => OTHER_KEY_FOLDER + Quote(path) + OTHER_TAIL + ADVICE
  }

  const OPENING: string := HUB_REFUSED + ": " + CLIENT_KEY_REJECTED

  method ClientKeyRejected(folder: Option<string>, other: Option<string>) returns (error: Error)
    ensures error == Connection(OPENING + Detail(folder, other))
  {
    hide Escape, HUB_REFUSED, CLIENT_KEY_REJECTED, KEY_FOLDER, OTHER_KEY_FOLDER, OTHER_TAIL, ADVICE, OPENING;
    var message := OPENING;
    if folder.Some? {
      message := message + KEY_FOLDER;
      message := WriteString(message, folder.value);
      if other.Some? {
        message := message + OTHER_KEY_FOLDER;
        message := WriteString(message, other.value);
        message := message + OTHER_TAIL;
      }
    }
    message := message + ADVICE;
    error := Connection(message);
    assert message == OPENING + Detail(folder, other);
  }

  function StripPrefix(text: string, prefix: string): Option<string>
  {
    if prefix <= text then Some(text[|prefix|..]) else None
  }

  function AndThen<T, U>(value: Option<T>, next: T -> Option<U>): Option<U>
  {
    match value
    case None => None
    case Some(v) => next(v)
  }

  /** What follows the fixed opening of a rejected-key message. */
  function ClientKeyRejection(error: Error): Option<string>
  {
    if error.Other? then None
    else AndThen(AndThen(StripPrefix(error.message, HUB_REFUSED), (t: string) => StripPrefix(t, ": ")),
                 (t: string) => StripPrefix(t, CLIENT_KEY_REJECTED))
  }

  function SkipSpace(text: string): string
  {
    if text != [] && text[0] in " \t\n\r" then SkipSpace(text[1..]) else text
  }

  /** The JSON string at the start of `text`, white space before it aside, and what follows it. */
  function LeadingJsonString(text: string): Option<(string, string)>
  {
    ReadString(SkipSpace(text))
  }

  /** The other folder, when what follows the first one names it. */
  function OtherFolder(rest: string): Option<string>
  {
    match AndThen(StripPrefix(rest, OTHER_KEY_FOLDER), (t: string) => LeadingJsonString(t))
    case None => None
    case Some(read) => Some(read.0)
  }

  function ClientKeyFolders(error: Error): Option<(string, Option<string>)>
  {
    var rest := AndThen(ClientKeyRejection(error), (t: string) => StripPrefix(t, KEY_FOLDER));
    match AndThen(rest, (t: string) => LeadingJsonString(t))
    case None => None
    case Some(read) => Some((read.0, OtherFolder(read.1)))
  }

  lemma StripsOwnPrefix(prefix: string, rest: string)
    ensures StripPrefix(prefix + rest, prefix) == Some(rest)
  {
    assert (prefix + rest)[..|prefix|] == prefix && (prefix + rest)[|prefix|..] == rest;
  }

  lemma ReadsLeadingQuoted(path: string, rest: string)
    ensures LeadingJsonString(Quote(path) + rest) == Some((path, rest))
  {
    hide Escape, ReadBody;
    ReadsQuoted(path, rest);
    assert (Quote(path) + rest)[0] == '"';
  }

  lemma OpeningIsStripped(rest: string)
    ensures ClientKeyRejection(Connection(OPENING + rest)) == Some(rest)
  {
    hide HUB_REFUSED, CLIENT_KEY_REJECTED;
    var message := OPENING + rest;
    StripsOwnPrefix(HUB_REFUSED, ": " + CLIENT_KEY_REJECTED + rest);
    assert message == HUB_REFUSED + (": " + CLIENT_KEY_REJECTED + rest);
    StripsOwnPrefix(": ", CLIENT_KEY_REJECTED + rest);
    assert ": " + CLIENT_KEY_REJECTED + rest == ": " + (CLIENT_KEY_REJECTED + rest);
    StripsOwnPrefix(CLIENT_KEY_REJECTED, rest);
  }

  /** The advice opens as no folder sentence does: the two part at their third and fourth characters. */
  lemma AdviceIsNoFolder()
    ensures StripPrefix(ADVICE, KEY_FOLDER) == None
    ensures StripPrefix(ADVICE, OTHER_KEY_FOLDER) == None
  {
    assert ADVICE[2] == 'A' && KEY_FOLDER[2] == 'T';
    assert ADVICE[3] == ' ' && OTHER_KEY_FOLDER[3] == 'n';
  }

  /** Whatever the two paths hold, the folders read back are the ones written, and none when none was. */
  lemma FoldersAreReadBack(folder: Option<string>, other: Option<string>)
    ensures ClientKeyFolders(Connection(OPENING + Detail(folder, other))) ==
      if folder.None? then None else Some((folder.value, other))
  {
    hide Escape, ReadBody, HUB_REFUSED, CLIENT_KEY_REJECTED, KEY_FOLDER, OTHER_KEY_FOLDER, OTHER_TAIL, ADVICE, OPENING;
    OpeningIsStripped(Detail(folder, other));
    AdviceIsNoFolder();
    if folder.Some? {
      StripsOwnPrefix(KEY_FOLDER, Quote(folder.value) + OtherDetail(other));
      assert Detail(folder, other) == KEY_FOLDER + (Quote(folder.value) + OtherDetail(other));
      ReadsLeadingQuoted(folder.value, OtherDetail(other));
      if other.Some? {
        StripsOwnPrefix(OTHER_KEY_FOLDER, Quote(other.value) + (OTHER_TAIL + ADVICE));
        assert OtherDetail(other) == OTHER_KEY_FOLDER + (Quote(other.value) + (OTHER_TAIL + ADVICE));
        ReadsLeadingQuoted(other.value, OTHER_TAIL + ADVICE);
      }
    }
  }

  /** Different folders make different messages. */
  lemma MessagesTellFoldersApart(folder: string, other: Option<string>, folder': string, other': Option<string>)
    ensures Detail(Some(folder), other) == Detail(Some(folder'), other') <==> folder == folder' && other == other'
  {
    FoldersAreReadBack(Some(folder), other);
    FoldersAreReadBack(Some(folder'), other');
  }

  lemma StrippedIsPrefixed(text: string, prefix: string)
    ensures StripPrefix(text, prefix).Some? ==> text == prefix + StripPrefix(text, prefix).value
  {}

  lemma RejectionFollowsTheOpening(error: Error)
    ensures ClientKeyRejection(error).Some? ==>
              error.Connection? && error.message == OPENING + ClientKeyRejection(error).value
  {
    hide HUB_REFUSED, CLIENT_KEY_REJECTED, StripPrefix;
    if ClientKeyRejection(error).Some? {
      var text := error.message;
      StrippedIsPrefixed(text, HUB_REFUSED);
      var rest := StripPrefix(text, HUB_REFUSED).value;
      StrippedIsPrefixed(rest, ": ");
      StrippedIsPrefixed(StripPrefix(rest, ": ").value, CLIENT_KEY_REJECTED);
    }
  }

  /** Any other error names no folder: one of another kind, or one that does not open as this refusal does. */
  lemma OtherErrorsNameNoFolder(error: Error)
    requires error.Connection? ==> !(OPENING <= error.message)
    ensures ClientKeyFolders(error) == None
  {
    hide OPENING, ClientKeyRejection, KEY_FOLDER;
    RejectionFollowsTheOpening(error);
  }
}
