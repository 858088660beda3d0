/**
 * The profile editor: the fields loaded from the profile, a new avatar copied
 * into the cache directory, the username check before saving, and the upload of
 * a local avatar file with the name and MIME type derived from its path.
 */
module EditProfile {
  import opened Wrappers
  import opened Text
  import opened FormData
  import opened Avatar

  /** The server the profile's avatar path is relative to. */
  const ServerBase: string := "http://192.168.1.15:8080"

  /** Only a file under this scheme is uploaded as the new avatar. */
  const LocalScheme: string := "file://"

  const FallbackName: string := "avatar.jpg"
  const FallbackExtension: string := "jpg"

  /** The profile request: an ok response with its (possibly missing) fields, a non-ok response, or a failure. */
  datatype ProfileReply = ProfileOk(username: Option<string>, region: Option<string>,
                                    bio: Option<string>, avatar: Option<string>)
                        | ProfileNotOk
                        | ProfileFailed

  /** The image library's answer for the avatar: cancelled, or the picked assets' URIs. */
  datatype AvatarPick = PickCanceled | PickedUris(uris: seq<string>)

  /** `avatar.split("/").pop() || "avatar.jpg"` */
  function FileName(path: string): (r: string)
    ensures r != ""
    ensures '/' !in r
    ensures AfterLast(path, '/') != "" ==> r == AfterLast(path, '/')
    ensures AfterLast(path, '/') == "" ==> r == FallbackName
  {
    var last := AfterLast(path, '/');
    if last != "" then last else FallbackHasNoSlash(); FallbackName
  }

  lemma FallbackHasNoSlash()
    ensures '/' !in FallbackName
  {
    assert forall i :: 0 <= i < |FallbackName| ==> FallbackName[i] != '/';
  }

  /** The file name of a path is the part after its last `/`. */
  lemma FileNameOfPath(dir: string, name: string)
    requires name != "" && '/' !in name
    ensures FileName(dir + "/" + name) == name
  {
    AfterLastOfSplit(dir, '/', name);
  }

  /** A path that ends with `/` names no file, and gets the fallback name. */
  lemma FileNameOfDirectory(dir: string)
    ensures FileName(dir + "/") == FallbackName
  {
    AfterLastOfSplit(dir, '/', "");
    assert dir + "/" == dir + ['/'] + [];
  }

  /** `fileName.split(".").pop()?.toLowerCase() || "jpg"` */
  function Extension(fileName: string): (r: string)
    ensures r != ""
    ensures AfterLast(fileName, '.') != "" ==> r == ToLower(AfterLast(fileName, '.'))
    ensures AfterLast(fileName, '.') == "" ==> r == FallbackExtension
  {
    var ext := ToLower(AfterLast(fileName, '.'));
    if ext != "" then ext else FallbackExtension
  }

  /** The extension of `stem.ext` is `ext` in lower case. */
  lemma ExtensionOfName(stem: string, ext: string)
    requires ext != "" && '.' !in ext
    ensures Extension(stem + "." + ext) == ToLower(ext)
  {
    AfterLastOfSplit(stem, '.', ext);
  }

  /** A name without a dot is its own extension, lower-cased. */
  lemma ExtensionWithoutDot(fileName: string)
    requires fileName != "" && '.' !in fileName
    ensures Extension(fileName) == ToLower(fileName)
  {
    AfterLastNoSeparator(fileName, '.');
  }

  /** `ext === "jpg" || ext === "jpeg" ? "image/jpeg" : `image/${ext}`` */
  function MimeType(ext: string): (r: string)
    ensures |r| >= 6 && r[..6] == "image/"
    ensures r == "image/jpeg" <==> ext == "jpg" || ext == "jpeg"
    ensures ext != "jpg" ==> r == "image/" + ext
  {
    if ext == "jpg" || ext == "jpeg" then "image/jpeg" else "image/" + ext
  }

  /** `avatar && avatar.startsWith("file://")`: the avatar is a local file to upload. */
  predicate AttachesAvatar(avatar: Option<string>)
    ensures AttachesAvatar(avatar) <==> avatar.Some? && |avatar.value| >= 7
                                        && forall i :: 0 <= i < 7 ==> avatar.value[i] == "file://"[i]
  {
    avatar.Some? && avatar.value != "" && StartsWith(avatar.value, LocalScheme)
  }

  /** The avatar's file entry: the local URI, its file name and the MIME type of its extension. */
  function AvatarEntry(path: string): (r: FormEntry)
    ensures r.key == "avatar" && r.value.File? && r.value.uri == path
    ensures r.value.name == FileName(path) && r.value.mimeType == MimeType(Extension(FileName(path)))
  {
    var name := FileName(path);
    FormEntry("avatar", File(path, name, MimeType(Extension(name))))
  }

  /** The saved body: the three text fields, then the avatar file when it is a local one. */
  function SaveForm(username: string, region: string, bio: string, avatar: Option<string>): (r: seq<FormEntry>)
    ensures |r| == if AttachesAvatar(avatar) then 4 else 3
    ensures r[..3] == [FormEntry("username", Field(username)), FormEntry("region", Field(region)),
                       FormEntry("bio", Field(bio))]
    ensures AttachesAvatar(avatar) ==> r[3] == AvatarEntry(avatar.value)
  {
    [FormEntry("username", Field(username)), FormEntry("region", Field(region)), FormEntry("bio", Field(bio))]
      + if AttachesAvatar(avatar) then [AvatarEntry(avatar.value)] else []
  }

  /** The avatar as the profile request sets it: the server's path on the server, or none. */
  function ServerAvatar(path: Option<string>): (r: Option<string>)
    ensures r.Some? <==> Present(path)
    ensures r.Some? ==> r.value == ServerBase + path.value
  {
    if Present(path) then Some(ServerBase + path.value) else None
  }

  /** An avatar loaded from the server is never uploaded again. */
  lemma ServerAvatarNotUploaded(path: Option<string>)
    ensures !AttachesAvatar(ServerAvatar(path))
  {
    if Present(path) {
      var s := ServerBase + path.value;
      assert s[0] == 'h' != LocalScheme[0];
    }
  }

  /** A file under a local directory is a local file. */
  lemma LocalDirectoryFile(directory: string, name: string)
    requires StartsWith(directory, LocalScheme)
    ensures AttachesAvatar(Some(directory + name))
  {
    var path := directory + name;
    assert path[..|LocalScheme|] == directory[..|LocalScheme|];
  }

  /** The file name of a file in a directory given with its trailing `/` is the file's own name. */
  lemma FileNameInDirectory(directory: string, name: string)
    requires directory != [] && directory[|directory| - 1] == '/'
    requires name != "" && '/' !in name
    ensures FileName(directory + name) == name
  {
    var dir := directory[..|directory| - 1];
    assert directory + name == dir + "/" + name by {
      assert directory == dir + "/";
    }
    FileNameOfPath(dir, name);
  }

  /**
   * A picked avatar copied into a local cache directory is uploaded, under the
   * picked file's own name.
   */
  lemma PickedAvatarUpload(cacheDirectory: string, pickedUri: string)
    requires StartsWith(cacheDirectory, LocalScheme)
    requires cacheDirectory[|cacheDirectory| - 1] == '/'
    requires AfterLast(pickedUri, '/') != ""
    ensures var path := cacheDirectory + AfterLast(pickedUri, '/');
            AttachesAvatar(Some(path)) && AvatarEntry(path).value.name == AfterLast(pickedUri, '/')
  {
    var name := AfterLast(pickedUri, '/');
    LocalDirectoryFile(cacheDirectory, name);
    FileNameInDirectory(cacheDirectory, name);
  }

  /** The editor's placeholder: the avatar when there is one, else the initials, else "??". */
  function PlaceholderView(avatar: Option<string>, username: string): (r: View)
    ensures Present(avatar) ==> r == Photo(avatar.value)
    ensures !Present(avatar) && username != "" ==> r == Initials(ToUpper(Lists.Take(username, 2)))
    ensures !Present(avatar) && username == "" ==> r == Initials("??")
  {
    if Present(avatar) then Photo(avatar.value)
    else if username != "" then Initials(ToUpper(Lists.Take(username, 2)))
    else Initials("??")
  }

  /** The editor draws the same thing as the avatar component does for the same avatar and username. */
  lemma PlaceholderAgreesWithComponent(avatar: Option<string>, username: string, size: Option<int>)
    ensures PlaceholderView(avatar, username) == Render(avatar, Some(username), size).view
  {
  }

  class ProfileEditor {
    var username: string
    var region: string
    var bio: string
    var avatar: Option<string>
    var loading: bool

    constructor ()
      ensures username == "" && region == "" && bio == "" && avatar == None && !loading
    {
      username := "";
      region := "";
      bio := "";
      avatar := None;
      loading := false;
    }

    /** The profile request settled: an ok response fills the fields (missing ones as ""); anything else keeps them. */
    method ApplyProfile(reply: ProfileReply)
      modifies this`username, this`region, this`bio, this`avatar
      ensures reply.ProfileOk? ==> username == reply.username.GetOr("") && region == reply.region.GetOr("")
                                   && bio == reply.bio.GetOr("") && avatar == ServerAvatar(reply.avatar)
      ensures !reply.ProfileOk? ==> username == old(username) && region == old(region)
                                    && bio == old(bio) && avatar == old(avatar)
    {
      if reply.ProfileOk? {
        username := reply.username.GetOr("");
        region := reply.region.GetOr("");
        bio := reply.bio.GetOr("");
        avatar := ServerAvatar(reply.avatar);
      }
    }

    /**
     * The image library returned. The first asset is copied into the cache
     * directory under its own file name, and the copy becomes the avatar. A
     * cancelled pick, an empty asset list (the lookup throws) or a failed copy
     * (`copied` false) leaves the avatar.
     */
    method PickAvatar(pick: AvatarPick, cacheDirectory: string, copied: bool)
      modifies this`avatar
      ensures pick.PickedUris? && pick.uris != [] && copied ==>
                avatar == Some(cacheDirectory + AfterLast(pick.uris[0], '/'))
      ensures !(pick.PickedUris? && pick.uris != [] && copied) ==> avatar == old(avatar)
    {
      if pick.PickedUris? && pick.uris != [] && copied {
        avatar := Some(cacheDirectory + AfterLast(pick.uris[0], '/'));
      }
    }

    /** `handleSave` up to the request: a blank username sends nothing; otherwise the body is built and loading starts. */
    method Save() returns (body: Option<seq<FormEntry>>)
      modifies this`loading
      ensures body.None? <==> AllWhitespace(username)
      ensures body.None? ==> loading == old(loading)
      ensures body.Some? ==> body.value == SaveForm(username, region, bio, avatar) && loading
    {
      if IsBlank(username) {
        body := None;
        return;
      }
      body := Some(SaveForm(username, region, bio, avatar));
      loading := true;
    }

    /** The save request settled, whatever the outcome: loading ends. */
    method SaveSettled()
      modifies this`loading
      ensures !loading
    {
      loading := false;
    }

    function RenderAvatar(): (r: View)
      reads this
      ensures r == Render(avatar, Some(username), None).view
    {
      PlaceholderAgreesWithComponent(avatar, username, None);
      PlaceholderView(avatar, username)
    }
  }
}
