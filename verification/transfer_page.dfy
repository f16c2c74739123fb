/**
  The decision rules of the transfer page, lifted out of its React
  handlers: the passphrase check before key generation, the guards before
  an upload, the reading of the recipient lookup's status, the list of
  files offered for download, and the unit chosen to display a size.
 */
module TransferPage {
  import opened Options
  import opened Decimal
  import opened FileModel
  import KeysRoute

  /** What a handler does next: carry on, or stop (showing an error when there is one). */
  datatype Decision = Proceed | Halt(error: Option<string>)

  // ---------------------------------------------------------------- key generation

  const MIN_PASSPHRASE: int := 10
  const PASSPHRASE_TOO_SHORT: string := "Passphrase must 10 characters or more"
  const PASSPHRASE_MISMATCH: string := "Passphrases don't match."

  /** `handleKeyPairGeneration` up to the point where the key pair is generated. */
  function KeyGenGuard(passphrase: string, confirmation: string): (d: Decision)
    ensures d == Proceed <==> |passphrase| >= MIN_PASSPHRASE && passphrase == confirmation
    ensures |passphrase| < MIN_PASSPHRASE ==> d == Halt(Some(PASSPHRASE_TOO_SHORT))
    ensures |passphrase| >= MIN_PASSPHRASE && passphrase != confirmation ==> d == Halt(Some(PASSPHRASE_MISMATCH))
  {
    if |passphrase| < MIN_PASSPHRASE then Halt(Some(PASSPHRASE_TOO_SHORT))
    else if passphrase != confirmation then Halt(Some(PASSPHRASE_MISMATCH))
    else Proceed
  }

  // ---------------------------------------------------------------- recipient check

  /** What axios saw for POST /api/keys: a status, or a failure without one. */
  datatype LookupResponse = Responded(status: int) | NoResponse

  datatype RecipientVerdict = RecipientVerdict(valid: bool, error: Option<string>)

  const NO_SUCH_USER: string := "User with that email doesn't exist."
  const NO_KEYS_YET: string := "Recipient hasn't generated their keys yet."
  const SERVER_ERROR: string := "Internal Server Error"

  /** axios resolves on 2xx and throws otherwise. */
  predicate Resolves(status: int) {
    200 <= status < 300
  }

  /** `validateRecipientEmail`: true only on 200; an error message for every thrown status. */
  function CheckRecipient(resp: LookupResponse): (v: RecipientVerdict)
    ensures v.valid <==> resp == Responded(200)
    ensures v.valid ==> v.error == None
    ensures resp == Responded(401) ==> v.error == Some(NO_SUCH_USER)
    ensures resp == Responded(404) ==> v.error == Some(NO_KEYS_YET)
    ensures resp == NoResponse ==> v.error == Some(SERVER_ERROR)
    ensures resp.Responded? && !Resolves(resp.status) && resp.status != 401 && resp.status != 404 ==>
      v.error == Some(SERVER_ERROR)
    ensures v.error == None <==> resp.Responded? && Resolves(resp.status)
  {
    match resp
    case NoResponse => RecipientVerdict(false, Some(SERVER_ERROR))
    case Responded(status) =>
      if status == 200 then RecipientVerdict(true, None)
      else if Resolves(status) then RecipientVerdict(false, None)
      else if status == 401 then RecipientVerdict(false, Some(NO_SUCH_USER))
      else if status == 404 then RecipientVerdict(false, Some(NO_KEYS_YET))
      else RecipientVerdict(false, Some(SERVER_ERROR))
  }

  /**
    The recipient check read against the keys route: it accepts exactly when
    the recipient has published a key, and each way of failing gets its message.
   */
  lemma RecipientCheckFollowsKeysRoute(hasSession: bool, email: string, lookup: KeysRoute.Lookup)
    ensures var v := CheckRecipient(Responded(KeysRoute.Post(hasSession, Some(email), lookup).status));
      && (v.valid <==> hasSession && email != "" && lookup.User? && KeysRoute.Truthy(lookup.publicKey))
      && (hasSession && email != "" && lookup == KeysRoute.NoUser ==> v.error == Some(NO_SUCH_USER))
      && (hasSession && email != "" && lookup.User? && !KeysRoute.Truthy(lookup.publicKey)
          ==> v.error == Some(NO_KEYS_YET))
      && (hasSession && email != "" && lookup == KeysRoute.DbError ==> v.error == Some(SERVER_ERROR))
      && (!hasSession || email == "" ==> v.error == Some(SERVER_ERROR))
  {
  }

  // ---------------------------------------------------------------- upload

  /** 1000 MiB; the message below says 100 MB but this is the bound applied. */
  const UPLOAD_LIMIT: int := 1000 * 1024 * 1024
  const TOO_LARGE: string := "File size excedes 100 MB, please choose a smaller file."
  const SELF_SEND: string := "You can't set yourself as the recipient."

  /**
    `handleUpload` up to encryption. `fileSize` is None when no file is
    chosen; the recipient lookup is only consulted after the size check, and
    the self-send check only after the lookup succeeded.
   */
  function UploadGuard(fileSize: Option<nat>, lookup: LookupResponse, sender: Option<string>, recipient: string): (d: Decision)
    ensures d == Proceed <==>
      fileSize.Some? && fileSize.value <= UPLOAD_LIMIT && lookup == Responded(200) && sender != Some(recipient)
    ensures fileSize == None ==> d == Halt(None)
    ensures fileSize.Some? && fileSize.value > 1_048_576_000 ==> d == Halt(Some(TOO_LARGE))
    ensures fileSize.Some? && fileSize.value <= UPLOAD_LIMIT && !CheckRecipient(lookup).valid ==>
      d == Halt(CheckRecipient(lookup).error)
    ensures fileSize.Some? && fileSize.value <= UPLOAD_LIMIT && lookup == Responded(200) && sender == Some(recipient) ==>
      d == Halt(Some(SELF_SEND))
  {
    match fileSize
    case None => Halt(None)
    case Some(size) =>
      if size > UPLOAD_LIMIT then Halt(Some(TOO_LARGE))
      else
        var verdict := CheckRecipient(lookup);
        if !verdict.valid then Halt(verdict.error)
        else if sender == Some(recipient) then Halt(Some(SELF_SEND))
        else Proceed
  }

  /** An oversized file is refused whatever the lookup would have said: the lookup is never reached. */
  lemma OversizedIgnoresLookup(size: nat, l1: LookupResponse, l2: LookupResponse,
                               sender: Option<string>, r1: string, r2: string)
    requires size > UPLOAD_LIMIT
    ensures UploadGuard(Some(size), l1, sender, r1) == UploadGuard(Some(size), l2, sender, r2)
  {
  }

  // ---------------------------------------------------------------- download list

  /** The ACTIVE rows, in their original order (`filter`). */
  function Actives(files: seq<FileRecord>): (r: seq<FileRecord>)
    ensures |r| <= |files|
    ensures forall i :: 0 <= i < |r| ==> r[i].status == Active
    ensures forall f :: f in r <==> f in files && f.status == Active
  {
    if |files| == 0 then []
    else (if files[0].status == Active then [files[0]] else []) + Actives(files[1..])
  }

  /** Filtering a concatenation filters each part and keeps them in order, so rows keep their order and multiplicity. */
  lemma {:induction false} ActivesAppend(a: seq<FileRecord>, b: seq<FileRecord>)
    ensures Actives(a + b) == Actives(a) + Actives(b)
  {
    if |a| == 0 {
      assert a + b == b;
    } else {
      assert (a + b)[1..] == a[1..] + b;
      ActivesAppend(a[1..], b);
    }
  }

  /** Filtering one more row at the end keeps it, after the earlier rows, exactly when it is ACTIVE. */
  lemma ActivesSnoc(s: seq<FileRecord>, x: FileRecord)
    ensures Actives(s + [x]) == Actives(s) + (if x.status == Active then [x] else [])
  {
    ActivesAppend(s, [x]);
    assert [x][1..] == [];
  }

  /** `Array.prototype.reverse`. */
  function Reverse<T>(s: seq<T>): (r: seq<T>)
    ensures |r| == |s|
    ensures forall i :: 0 <= i < |s| ==> r[i] == s[|s| - 1 - i]
  {
    if |s| == 0 then [] else Reverse(s[1..]) + [s[0]]
  }

  /** `checkDbForFiles`: the server's list, ACTIVE rows only, last first. */
  function DownloadList(serverList: seq<FileRecord>): (r: seq<FileRecord>)
    ensures forall i :: 0 <= i < |r| ==> r[i].status == Active
    ensures forall f :: f in r <==> f in serverList && f.status == Active
    ensures |r| == |Actives(serverList)|
    ensures Reverse(r) == Actives(serverList)
  {
    var r := Reverse(Actives(serverList));
    assert Reverse(r) == Actives(serverList);
    r
  }

  predicate OldestFirst(files: seq<FileRecord>) {
    forall i, j :: 0 <= i < j < |files| ==> files[i].createdAt <= files[j].createdAt
  }

  predicate NewestFirst(files: seq<FileRecord>) {
    forall i, j :: 0 <= i < j < |files| ==> files[i].createdAt >= files[j].createdAt
  }

  /** Filtering keeps the relative order of what it keeps. */
  lemma {:induction false} ActivesKeepOrder(files: seq<FileRecord>)
    requires OldestFirst(files)
    ensures OldestFirst(Actives(files))
  {
    if |files| > 0 {
      ActivesKeepOrder(files[1..]);
      var tail := Actives(files[1..]);
      forall j | 0 <= j < |tail|
        ensures files[0].createdAt <= tail[j].createdAt
      {
        assert tail[j] in files[1..];
      }
    }
  }

  /** When the server lists files oldest first, the download list shows them newest first. */
  lemma DownloadListNewestFirst(serverList: seq<FileRecord>)
    requires OldestFirst(serverList)
    ensures NewestFirst(DownloadList(serverList))
  {
    ActivesKeepOrder(serverList);
  }

  // ---------------------------------------------------------------- size display

  const KIB: int := 1024
  const MIB: int := 1024 * 1024
  const GIB: int := 1024 * 1024 * 1024

  datatype SizeUnit = GB | MB | KB | Bytes

  function Rank(u: SizeUnit): nat {
    match u
    case Bytes => 0
    case KB => 1
    case MB => 2
    case GB => 3
  }

  /** The number and unit shown, or for sizes under 1 KiB the exact integer and " B". */
  datatype SizeLabel = Scaled(unit: SizeUnit) | Exact(text: string)

  /** `fileSizeFormatter`, without the rounded number shown beside GB, MB and KB. */
  function FormatSize(bytes: int): (l: SizeLabel)
    ensures l == Scaled(GB) <==> bytes >= 1_073_741_824
    ensures l == Scaled(MB) <==> 1_048_576 <= bytes < 1_073_741_824
    ensures l == Scaled(KB) <==> 1024 <= bytes < 1_048_576
    ensures l.Exact? <==> bytes < 1024
    ensures l.Exact? ==> |l.text| >= 3 && l.text[|l.text| - 2..] == " B"
  {
    if bytes >= GIB then Scaled(GB)
    else if bytes >= MIB then Scaled(MB)
    else if bytes >= KIB then Scaled(KB)
    else Exact(IntToText(bytes) + " B")
  }

  function UnitOf(l: SizeLabel): SizeUnit {
    if l.Scaled? then l.unit else Bytes
  }

  /** A larger file is never shown in a smaller unit. */
  lemma FormatSizeMonotone(a: int, b: int)
    requires a <= b
    ensures Rank(UnitOf(FormatSize(a))) <= Rank(UnitOf(FormatSize(b)))
  {
  }

  /** For sizes under 1 KiB the number shown reads back as the exact byte count. */
  lemma ExactBytesReadBack(bytes: nat)
    requires bytes < 1024
    ensures var t := FormatSize(bytes).text;
      AllDigits(t[..|t| - 2]) && ValueOf(t[..|t| - 2]) == bytes
  {
    var t := FormatSize(bytes).text;
    assert t[..|t| - 2] == NatToText(bytes);
    ValueOfNatToText(bytes);
  }
}
