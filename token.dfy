/**
 * The file-backed token store of package `netgear`: one JSON file
 * `{"token": ...}` per host in a token directory. The file system is a
 * `Disk` object whose files the store's methods change in place.
 */
module TokenStore {
  import opened Results
  import FilePath

  /** A file path as (directory, file name). */
  datatype Path = Path(dir: string, name: string)

  /**
   * A file's content as `encoding/json` decodes it into a `map[string]string`:
   * a JSON object of strings, the JSON literal `null` (decoded without error
   * into a nil map), or anything else, which fails to decode.
   */
  datatype FileContent = JsonObject(fields: map<string, string>) | JsonNull | NotStringMap

  datatype TokenError = FileNotExist(path: Path) | InvalidJson(path: Path)

  const TokenKey: string := "token"
  const DefaultDirName: string := ".netgear"
  const FilePrefix: string := "token_"
  const FileSuffix: string := ".json"

  /** What `json.Marshal(map[string]string{"token": token})` writes. */
  function Marshal(token: string): FileContent {
    JsonObject(map[TokenKey := token])
  }

  /** `json.Unmarshal` into a `map[string]string`; None is a decoding error. */
  function Unmarshal(content: FileContent): Option<map<string, string>> {
    match content
    case JsonObject(fields) => Some(fields)
    case JsonNull => Some(map[])
    case NotStringMap => None
  }

  /** What a token file holds decodes back to the one-entry map it was written from. */
  lemma UnmarshalMarshal(token: string)
    ensures Unmarshal(Marshal(token)) == Some(map[TokenKey := token])
    ensures TokenKey in Unmarshal(Marshal(token)).value && Unmarshal(Marshal(token)).value[TokenKey] == token
  {
  }

  /** The token file's name: the host's last path element between a prefix and `.json`. */
  function TokenFileName(host: string): string {
    FilePrefix + FilePath.Base(host) + FileSuffix
  }

  /** `getTokenFile`: the token file of `host` inside `dir`. */
  function TokenFile(dir: string, host: string): Path {
    Path(dir, TokenFileName(host))
  }

  /**
   * What `GetToken` reads from the files `files`: the file must exist and decode;
   * a missing "token" key reads as the empty string.
   */
  function ReadToken(files: map<Path, FileContent>, path: Path): Result<string, TokenError> {
    if path !in files then Err(FileNotExist(path))
    else match Unmarshal(files[path])
      case None => Err(InvalidJson(path))
      case Some(fields) => Ok(if TokenKey in fields then fields[TokenKey] else "")
  }

  /**
   * The token file's name adds a subdirectory exactly when the host's last
   * element is `/` (a host made only of separators): its file name
   * `token_/.json` names a file in a `token_` subdirectory.
   */
  lemma TokenFileInDirectory(dir: string, host: string)
    ensures FilePath.Separator in TokenFile(dir, host).name <==> FilePath.Base(host) == [FilePath.Separator]
  {
    SeparatorInFileName(FilePath.Base(host));
  }

  /** The prefix and suffix add no separator to a file name. */
  lemma SeparatorInFileName(b: string)
    ensures FilePath.Separator in FilePrefix + b + FileSuffix <==> FilePath.Separator in b
  {
    var name := FilePrefix + b + FileSuffix;
    if FilePath.Separator in name {
      var i :| 0 <= i < |name| && name[i] == FilePath.Separator;
      assert |FilePrefix| <= i < |FilePrefix| + |b| && name[i] == b[i - |FilePrefix|];
    }
    if FilePath.Separator in b {
      var i :| 0 <= i < |b| && b[i] == FilePath.Separator;
      assert name[|FilePrefix| + i] == b[i];
    }
  }

  /** Two hosts share a token file exactly when their last path elements agree. */
  lemma TokenFileSameIff(dir: string, host1: string, host2: string)
    ensures TokenFile(dir, host1) == TokenFile(dir, host2) <==> FilePath.Base(host1) == FilePath.Base(host2)
  {
    var n1, n2 := TokenFileName(host1), TokenFileName(host2);
    if n1 == n2 {
      assert FilePath.Base(host1) == n1[|FilePrefix|..|n1| - |FileSuffix|];
      assert FilePath.Base(host2) == n2[|FilePrefix|..|n2| - |FileSuffix|];
    }
  }

  /**
   * The file name keeps a non-empty host verbatim when it has no `/`: dots
   * and colons are not replaced (`192.168.1.10:80` gives `token_192.168.1.10:80.json`).
   * The empty host is the exception, see EmptyHostFileName.
   */
  lemma TokenFileKeepsHost(host: string)
    requires host != [] && FilePath.Separator !in host
    ensures TokenFileName(host) == FilePrefix + host + FileSuffix
  {
    FilePath.BaseOfName(host);
  }

  /** The empty host is not kept: its base is ".", so its file is `token_..json`. */
  lemma EmptyHostFileName()
    ensures TokenFileName("") == "token_..json"
    ensures TokenFileName("") != FilePrefix + "" + FileSuffix
  {
  }

  /** A host given as a path (`dir/name`) uses the file of its last element. */
  lemma TokenFileOfPathHost(dir: string, prefix: string, host: string)
    requires host != [] && FilePath.Separator !in host
    ensures TokenFile(dir, prefix + [FilePath.Separator] + host) == TokenFile(dir, host)
  {
    FilePath.BaseOfJoined(prefix, host);
    FilePath.BaseOfName(host);
  }

  /** Writing a token and reading it back, under the same or an aliasing host. */
  lemma WriteThenRead(files: map<Path, FileContent>, dir: string, writer: string, reader: string, token: string)
    requires FilePath.Base(writer) == FilePath.Base(reader)
    ensures ReadToken(files[TokenFile(dir, writer) := Marshal(token)], TokenFile(dir, reader)) == Ok(token)
  {
  }

  /** Writing one file leaves what is read from any other path. */
  lemma ReadOtherPath(files: map<Path, FileContent>, written: Path, read: Path, content: FileContent)
    requires written != read
    ensures ReadToken(files[written := content], read) == ReadToken(files, read)
  {
    var after := files[written := content];
    assert (read in after <==> read in files) && (read in files ==> after[read] == files[read]);
  }

  /** Writing the token of one host leaves what every host with another file reads. */
  lemma WriteLeavesOtherHosts(files: map<Path, FileContent>, dir: string, writer: string, reader: string, token: string)
    requires FilePath.Base(writer) != FilePath.Base(reader)
    ensures ReadToken(files[TokenFile(dir, writer) := Marshal(token)], TokenFile(dir, reader))
         == ReadToken(files, TokenFile(dir, reader))
  {
    TokenFileSameIff(dir, writer, reader);
    ReadOtherPath(files, TokenFile(dir, writer), TokenFile(dir, reader), Marshal(token));
  }

  /** A second write replaces the first: only the last token is read back. */
  lemma OverwriteKeepsLast(files: map<Path, FileContent>, path: Path, first: string, second: string)
    ensures files[path := Marshal(first)][path := Marshal(second)] == files[path := Marshal(second)]
    ensures ReadToken(files[path := Marshal(first)][path := Marshal(second)], path) == Ok(second)
  {
  }

  /** A decodable file without a "token" key reads as the empty token, without error. */
  lemma MissingKeyReadsEmpty(files: map<Path, FileContent>, path: Path)
    requires path in files && (files[path] == JsonNull || (files[path].JsonObject? && TokenKey !in files[path].fields))
    ensures ReadToken(files, path) == Ok("")
  {
  }

  /** The file system: every file by path. */
  class Disk {
    var files: map<Path, FileContent>

    constructor (files: map<Path, FileContent>)
      ensures this.files == files
    {
      this.files := files;
    }
  }

  /** `FileTokenManager`: a token directory on a disk. */
  class FileTokenManager {
    const tokenDir: string
    const disk: Disk

    /**
     * `NewFileTokenManager`: an empty directory means `.netgear` in the home
     * directory; `homeDir` is what `os.UserHomeDir` returned ("" when it failed).
     */
    constructor (tokenDir: string, homeDir: string, disk: Disk)
      ensures this.tokenDir == if tokenDir == "" then FilePath.Join(homeDir, DefaultDirName) else tokenDir
      ensures this.tokenDir != ""
      ensures this.disk == disk
    {
      this.tokenDir := if tokenDir == "" then FilePath.Join(homeDir, DefaultDirName) else tokenDir;
      this.disk := disk;
    }

    /**
     * `GetToken`: Go's ("", err) when the file is missing or does not decode,
     * otherwise the stored token (empty when the key is absent).
     */
    method GetToken(host: string) returns (token: string, err: Option<TokenError>)
      ensures var path := TokenFile(tokenDir, host);
        && (path !in disk.files ==> err == Some(FileNotExist(path)))
        && (path in disk.files && Unmarshal(disk.files[path]).None? ==> err == Some(InvalidJson(path)))
        && (err.None? <==> ReadToken(disk.files, path).Ok?)
        && (err.None? ==> token == ReadToken(disk.files, path).value)
        && (err.Some? ==> token == "")
    {
      var path := TokenFile(tokenDir, host);
      if path !in disk.files {
        return "", Some(FileNotExist(path));
      }
      var fields := Unmarshal(disk.files[path]);
      if fields.None? {
        return "", Some(InvalidJson(path));
      }
      token := if TokenKey in fields.value then fields.value[TokenKey] else "";
      err := None;
    }

    /** `SetToken`: (over)writes the host's token file and touches no other file. */
    method SetToken(host: string, token: string)
      modifies disk
      ensures disk.files == old(disk.files)[TokenFile(tokenDir, host) := Marshal(token)]
      ensures ReadToken(disk.files, TokenFile(tokenDir, host)) == Ok(token)
      ensures forall p :: p != TokenFile(tokenDir, host) ==>
                (p in disk.files <==> p in old(disk.files)) &&
                (p in disk.files ==> disk.files[p] == old(disk.files)[p])
    {
      disk.files := disk.files[TokenFile(tokenDir, host) := Marshal(token)];
    }

    /** `RemoveToken`: deletes the host's token file; a missing file is an error. */
    method RemoveToken(host: string) returns (err: Option<TokenError>)
      modifies disk
      ensures var path := TokenFile(tokenDir, host);
        if path in old(disk.files) then
          err == None && disk.files == old(disk.files) - {path}
        else
          err == Some(FileNotExist(path)) && disk.files == old(disk.files)
      ensures ReadToken(disk.files, TokenFile(tokenDir, host)) == Err(FileNotExist(TokenFile(tokenDir, host)))
    {
      var path := TokenFile(tokenDir, host);
      if path in disk.files {
        disk.files := disk.files - {path};
        err := None;
      } else {
        err := Some(FileNotExist(path));
      }
    }
  }
}
