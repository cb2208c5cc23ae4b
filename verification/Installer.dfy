/** The verified image installer (image/handler/src/docker/installer.rs): a chain of hashes from
    one root over the manifest list and the container configuration to the file system layers. */
module Installer {
  import opened Common
  import opened Hashing
  import opened Manifests

  /** The files an archive unpacks to, by path. */
  type Files = map<string, Stored>

  type Rootfs = map<string, seq<byte>>

  /** What unpacking a layer does: fail, or produce a file system, either after reading an end marker
      within the first `used` bytes, or because the end of the file was read where an entry could start. */
  datatype Untar = Bad | Stopped(fs: Rootfs, used: nat) | Ended(fs: Rootfs)

  /** The libraries: hashes, text decoding, JSON and tar. */
  datatype Platform = Platform(
    hash: (HashType, seq<byte>) -> seq<byte>,
    utf8: seq<byte> -> Option<string>,
    manifests: string -> Option<seq<ImageManifest>>,
    config: string -> Option<ContainerConfig>,
    unpack: seq<byte> -> Option<Files>,
    untar: (Rootfs, seq<byte>) -> Untar)

  datatype InstallError =
    | DirCreation | Archive
    | FileOpen(path: string) | FileRead(path: string) | Serde(path: string)
    | InvalidPath(path: string) | InvalidHex(text: string)
    | HashMismatch(path: string, expected: seq<byte>, got: seq<byte>)
    | InvalidImageFile(path: string) | HashNumberMismatch | NoImageForArch

  const MANIFEST := "manifest.json"

  // ---------------------------------------------------------------- specification

  /** `read_measured` of a path: its text and its hash. */
  function Measured(p: Platform, files: Files, path: string): Result<(string, seq<byte>), InstallError> {
    if path !in files then Err(FileOpen(path))
    else if !files[path].Sound() then Err(FileRead(path))
    else
      match p.utf8(files[path].data)
      case None => Err(FileRead(path))
      case Some(text) => Ok((text, p.hash(Sha256, files[path].data)))
  }

  /** The hash a configuration's file name commits to: the part before the first dot. */
  function NamedHash(name: string): Result<seq<byte>, InstallError> {
    match SplitOnce(name, '.')
    case None => Err(InvalidPath(name))
    case Some((hex, _)) =>
      match HexDecode(hex)
      case None => Err(InvalidHex(hex))
      case Some(h) => Ok(h)
  }

  function ConfigOf(p: Platform, files: Files, m: ImageManifest): Result<ContainerConfig, InstallError> {
    match Measured(p, files, m.config)
    case Err(e) => Err(e)
    case Ok((text, got)) =>
      match NamedHash(m.config)
      case Err(e) => Err(e)
      case Ok(expected) =>
        if got != expected then Err(HashMismatch(m.config, expected, got))
        else
          match p.config(text)
          case None => Err(Serde(m.config))
          case Some(c) => Ok(c)
  }

  function FirstArm64(p: Platform, files: Files, ms: seq<ImageManifest>):
    Result<(ImageManifest, ContainerConfig), InstallError>
  {
    if ms == [] then Err(NoImageForArch)
    else
      match ConfigOf(p, files, ms[0])
      case Err(e) => Err(e)
      case Ok(c) => if c.arch == "arm64" then Ok((ms[0], c)) else FirstArm64(p, files, ms[1..])
  }

  /** The manifest list, checked against the root hash when there is one. */
  function ManifestList(p: Platform, files: Files, rot: Option<seq<byte>>): Result<seq<ImageManifest>, InstallError> {
    match Measured(p, files, MANIFEST)
    case Err(e) => Err(e)
    case Ok((text, got)) =>
      if rot.Some? && rot.value != got then Err(HashMismatch(MANIFEST, rot.value, got))
      else
        match p.manifests(text)
        case None => Err(Serde(MANIFEST))
        case Some(ms) => Ok(ms)
  }

  function SelectedImage(p: Platform, files: Files, rot: Option<seq<byte>>):
    Result<(ImageManifest, ContainerConfig), InstallError>
  {
    match ManifestList(p, files, rot)
    case Err(e) => Err(e)
    case Ok(ms) => FirstArm64(p, files, ms)
  }

  /** The unpacker succeeds and meets no faulty read: neither before its end marker nor, when it reads
      to the end of the file, there. */
  predicate ReadsThrough(f: Stored, u: Untar) {
    match u
    case Bad => false
    case Stopped(_, used) => used <= f.Limit()
    case Ended(_) => f.Sound()
  }

  /** One layer: unpack what can be read, drain the rest, compare the hash of all of it. */
  function AddLayer(p: Platform, files: Files, fs: Rootfs, path: string, digest: Digest): Result<Rootfs, InstallError> {
    if path !in files then Err(InvalidImageFile(path))
    else
      var f := files[path];
      var unpacked := p.untar(fs, f.data);
      if !ReadsThrough(f, unpacked) then Err(Archive)
      else
        var got := p.hash(digest.ty, f.Readable());
        if got != digest.val then Err(HashMismatch(path, digest.val, got)) else Ok(unpacked.fs)
  }

  function AddLayers(p: Platform, files: Files, fs: Rootfs, paths: seq<string>, digests: seq<Digest>):
    Result<Rootfs, InstallError>
    requires |paths| == |digests|
    decreases |paths|
  {
    if paths == [] then Ok(fs)
    else
      match AddLayer(p, files, fs, paths[0], digests[0])
      case Err(e) => Err(e)
      case Ok(fs') => AddLayers(p, files, fs', paths[1..], digests[1..])
  }

  /** The outcome of installing an unpacked image: the configuration and the root file system. */
  function Installed(p: Platform, files: Files, rot: seq<byte>): Result<(ContainerConfig, Rootfs), InstallError> {
    match SelectedImage(p, files, Some(rot))
    case Err(e) => Err(e)
    case Ok((m, c)) =>
      if |m.layers| != |c.diffIds| then Err(HashNumberMismatch)
      else
        match AddLayers(p, files, map[], m.layers, c.diffIds)
        case Err(e) => Err(e)
        case Ok(fs) => Ok((c, fs))
  }

  // ---------------------------------------------------------------- implementation

  /** The target directory: the unpacked image and the root file system, once they exist. */
  class Installer {
    var img: Option<Files>
    var rootfs: Option<Rootfs>

    constructor ()
      ensures img == None && rootfs == None
    {
      img, rootfs := None, None;
    }

    /** `scripts` gives the poll behaviour of each file. */
    method ReadText(p: Platform, files: Files, path: string, scripts: string -> seq<Poll>)
      returns (r: Result<(string, seq<byte>), InstallError>)
      ensures r == Measured(p, files, path)
      ensures path !in files ==> r == Err(FileOpen(path))
      ensures path in files && (!files[path].Sound() || p.utf8(files[path].data).None?) ==> r == Err(FileRead(path))
      ensures path in files && files[path].Sound() && p.utf8(files[path].data).Some? ==>
        r == Ok((p.utf8(files[path].data).value, p.hash(Sha256, files[path].data)))
    {
      if path !in files { return Err(FileOpen(path)); }
      var read := ReadMeasured(p.hash, Sha256, files[path], scripts(path));
      if read.None? { return Err(FileRead(path)); }
      match p.utf8(read.value.0) {
        case None => r := Err(FileRead(path));
        case Some(text) => r := Ok((text, read.value.1));
      }
    }

    method ReadContainerConfig(p: Platform, files: Files, m: ImageManifest, scripts: string -> seq<Poll>)
      returns (r: Result<ContainerConfig, InstallError>)
      ensures r == ConfigOf(p, files, m)
      ensures m.config !in files ==> r == Err(FileOpen(m.config))
      ensures m.config in files && (!files[m.config].Sound() || p.utf8(files[m.config].data).None?) ==>
        r == Err(FileRead(m.config))
      ensures m.config in files && files[m.config].Sound() && p.utf8(files[m.config].data).Some? ==>
        var data := files[m.config].data;
        var hash, text := p.hash(Sha256, data), p.utf8(data).value;
        match SplitOnce(m.config, '.')
        case None => r == Err(InvalidPath(m.config))
        case Some((hex, _)) =>
          var named := HexDecode(hex);
          if named.None? then r == Err(InvalidHex(hex))
          else if named.value != hash then r == Err(HashMismatch(m.config, named.value, hash))
          else r == if p.config(text).Some? then Ok(p.config(text).value) else Err(Serde(m.config))
    {
      var read := ReadText(p, files, m.config, scripts);
      if read.Err? { return Err(read.error); }
      var (text, got) := read.value;
      var named := NamedHash(m.config);
      if named.Err? { return Err(named.error); }
      if got != named.value { return Err(HashMismatch(m.config, named.value, got)); }
      match p.config(text) {
        case None => r := Err(Serde(m.config));
        case Some(c) => r := Ok(c);
      }
    }

    method ReadManifest(p: Platform, files: Files, rot: Option<seq<byte>>, scripts: string -> seq<Poll>)
      returns (r: Result<(ImageManifest, ContainerConfig), InstallError>)
      ensures r == SelectedImage(p, files, rot)
      ensures MANIFEST !in files ==> r == Err(FileOpen(MANIFEST))
      ensures MANIFEST in files && (!files[MANIFEST].Sound() || p.utf8(files[MANIFEST].data).None?) ==>
        r == Err(FileRead(MANIFEST))
      ensures MANIFEST in files && files[MANIFEST].Sound() && p.utf8(files[MANIFEST].data).Some? ==>
        var hash, parsed := p.hash(Sha256, files[MANIFEST].data), p.manifests(p.utf8(files[MANIFEST].data).value);
        if rot.Some? && rot.value != hash then r == Err(HashMismatch(MANIFEST, rot.value, hash))
        else if parsed.None? then r == Err(Serde(MANIFEST))
        else r == FirstArm64(p, files, parsed.value)
    {
      var read := ReadText(p, files, MANIFEST, scripts);
      if read.Err? { return Err(read.error); }
      var (text, got) := read.value;
      if rot.Some? && rot.value != got { return Err(HashMismatch(MANIFEST, rot.value, got)); }
      var parsed := p.manifests(text);
      if parsed.None? { return Err(Serde(MANIFEST)); }
      var ms := parsed.value;
      for i := 0 to |ms|
        invariant FirstArm64(p, files, ms[i..]) == FirstArm64(p, files, ms)
      {
        assert ms[i..][1..] == ms[i + 1..];
        var c := ReadContainerConfig(p, files, ms[i], scripts);
        if c.Err? { return Err(c.error); }
        if c.value.arch == "arm64" { return Ok((ms[i], c.value)); }
      }
      r := Err(NoImageForArch);
    }

    /** One layer through the hashing reader: unpack, drain, compare. */
    method InstallLayer(p: Platform, files: Files, fs: Rootfs, path: string, digest: Digest, script: seq<Poll>)
      returns (r: Result<Rootfs, InstallError>)
      ensures r == AddLayer(p, files, fs, path, digest)
      ensures path !in files ==> r == Err(InvalidImageFile(path))
      ensures path in files ==>
        var f, unpacked := files[path], p.untar(fs, files[path].data);
        var hash := p.hash(digest.ty, f.data[..f.Limit()]);
        if unpacked.Bad? || (unpacked.Stopped? && unpacked.used > f.Limit()) || (unpacked.Ended? && !f.Sound())
        then r == Err(Archive)
        else r == if hash == digest.val then Ok(unpacked.fs) else Err(HashMismatch(path, digest.val, hash))
    {
      if path !in files { return Err(InvalidImageFile(path)); }
      var file := new File(files[path], script);
      var reader := new Hasher(digest.ty, file);
      var unpacked := p.untar(fs, files[path].data);
      var ok;
      match unpacked {
        case Bad => return Err(Archive);
        case Stopped(_, used) => ok := reader.Take(used, 512);
        case Ended(_) => var content; ok, content := reader.ReadToEnd([512]);
      }
      if !ok { return Err(Archive); }
      DiscardRest(reader);
      assert reader.absorbed == files[path].Readable();
      var measurement := reader.Finalize(p.hash);
      if measurement != digest.val { return Err(HashMismatch(path, digest.val, measurement)); }
      r := Ok(unpacked.fs);
    }

    /** `install`: succeeds exactly when both directories are new, the archive unpacks and the image
        checks out, and then the root file system is the one the image denotes. */
    method Install(p: Platform, rot: seq<byte>, image: seq<byte>, scripts: string -> seq<Poll>)
      returns (r: Result<ContainerConfig, InstallError>)
      modifies this
      ensures old(img).Some? ==> r == Err(DirCreation) && img == old(img) && rootfs == old(rootfs)
      ensures old(img).None? ==> img.Some?
      ensures old(img).None? && p.unpack(image).None? ==> r == Err(Archive) && rootfs == old(rootfs)
      ensures old(img).None? && p.unpack(image).Some? ==>
        var files := p.unpack(image).value;
        && img == Some(files)
        && (SelectedImage(p, files, Some(rot)).Err? ==>
              r == Err(SelectedImage(p, files, Some(rot)).error) && rootfs == old(rootfs))
        && (SelectedImage(p, files, Some(rot)).Ok? && old(rootfs).Some? ==>
              r == Err(DirCreation) && rootfs == old(rootfs))
        && (SelectedImage(p, files, Some(rot)).Ok? && old(rootfs).None? ==>
              && rootfs.Some?
              && (var (m, c) := SelectedImage(p, files, Some(rot)).value;
                  |m.layers| != |c.diffIds| ==> r == Err(HashNumberMismatch) && rootfs == Some(map[]))
              && (Installed(p, files, rot).Ok? ==>
                    r == Ok(Installed(p, files, rot).value.0) && rootfs.value == Installed(p, files, rot).value.1)
              && (Installed(p, files, rot).Err? ==> r == Err(Installed(p, files, rot).error)))
    {
      if img.Some? { return Err(DirCreation); }
      img := Some(map[]);
      var unpacked := p.unpack(image);
      if unpacked.None? { return Err(Archive); }
      var files := unpacked.value;
      img := Some(files);

      var selected := ReadManifest(p, files, Some(rot), scripts);
      if selected.Err? { return Err(selected.error); }
      var (manifest, config) := selected.value;

      if rootfs.Some? { return Err(DirCreation); }
      rootfs := Some(map[]);
      if |manifest.layers| != |config.diffIds| { return Err(HashNumberMismatch); }

      var fs: Rootfs := map[];
      for i := 0 to |manifest.layers|
        invariant img == Some(files) && rootfs == Some(fs)
        invariant AddLayers(p, files, fs, manifest.layers[i..], config.diffIds[i..]) ==
                  AddLayers(p, files, map[], manifest.layers, config.diffIds)
      {
        assert manifest.layers[i..][1..] == manifest.layers[i + 1..];
        assert config.diffIds[i..][1..] == config.diffIds[i + 1..];
        var path := manifest.layers[i];
        var layer := InstallLayer(p, files, fs, path, config.diffIds[i], scripts(path));
        if layer.Err? { return Err(layer.error); }
        fs := layer.value;
        rootfs := Some(fs);
      }
      r := Ok(config);
    }

    /** `validate`: reads the image that is there without a root hash; the file system is untouched. */
    method Validate(p: Platform, scripts: string -> seq<Poll>) returns (r: Result<ContainerConfig, InstallError>)
      ensures img.None? ==> r == Err(FileOpen(MANIFEST))
      ensures img.Some? ==>
        var s := SelectedImage(p, img.value, None);
        r == if s.Ok? then Ok(s.value.1) else Err(s.error)
    {
      if img.None? { return Err(FileOpen(MANIFEST)); }
      var selected := ReadManifest(p, img.value, None, scripts);
      r := if selected.Ok? then Ok(selected.value.1) else Err(selected.error);
    }
  }

  // ---------------------------------------------------------------- what acceptance means

  /** The configuration was read, hash-checked and parsed, and is for another architecture. */
  predicate ForAnotherArch(p: Platform, files: Files, m: ImageManifest) {
    ConfigOf(p, files, m).Ok? && ConfigOf(p, files, m).value.arch != "arm64"
  }

  predicate FirstAt(p: Platform, files: Files, ms: seq<ImageManifest>, i: nat, m: ImageManifest, c: ContainerConfig) {
    && i < |ms| && ms[i] == m && ConfigOf(p, files, m) == Ok(c) && c.arch == "arm64"
    && forall j | 0 <= j < i :: ForAnotherArch(p, files, ms[j])
  }

  lemma FirstAtShifted(p: Platform, files: Files, ms: seq<ImageManifest>, i: nat, m: ImageManifest, c: ContainerConfig)
    requires ms != [] && ForAnotherArch(p, files, ms[0])
    ensures FirstAt(p, files, ms[1..], i, m, c) <==> FirstAt(p, files, ms, i + 1, m, c)
  {}

  /** Every manifest before the selected one has a configuration that was read, hash-checked and
      parsed, and is for another architecture; the selected one is the first for arm64. */
  lemma {:induction false} FirstArm64Exact(p: Platform, files: Files, ms: seq<ImageManifest>,
                                           m: ImageManifest, c: ContainerConfig)
    ensures FirstArm64(p, files, ms) == Ok((m, c)) <==> exists i: nat :: FirstAt(p, files, ms, i, m, c)
  {
    if ms != [] && ForAnotherArch(p, files, ms[0]) {
      FirstArm64Exact(p, files, ms[1..], m, c);
      if i: nat :| FirstAt(p, files, ms[1..], i, m, c) { FirstAtShifted(p, files, ms, i, m, c); }
      if i: nat :| FirstAt(p, files, ms, i, m, c) { FirstAtShifted(p, files, ms, i - 1, m, c); }
    } else if ms != [] {
      if FirstArm64(p, files, ms) == Ok((m, c)) { assert FirstAt(p, files, ms, 0, m, c); }
    }
  }

  /** The configuration's content hashes to the value its name starts with. */
  lemma ConfigIsNamedByHash(p: Platform, files: Files, m: ImageManifest)
    requires ConfigOf(p, files, m).Ok?
    ensures m.config in files && files[m.config].Sound()
    ensures NamedHash(m.config) == Ok(p.hash(Sha256, files[m.config].data))
    ensures exists k | 0 <= k < |m.config| ::
              && m.config[k] == '.' && '.' !in m.config[..k]
              && HexDecode(m.config[..k]) == Some(p.hash(Sha256, files[m.config].data))
    ensures p.utf8(files[m.config].data).Some?
            && p.config(p.utf8(files[m.config].data).value) == Some(ConfigOf(p, files, m).value)
  {
    var (hex, rest) := SplitOnce(m.config, '.').value;
    assert m.config[|hex|] == '.' && m.config[..|hex|] == hex;
  }

  /** Every layer's readable bytes hash to the digest at the same index. */
  lemma {:induction false} LayersMatchDigests(p: Platform, files: Files, fs: Rootfs, paths: seq<string>,
                                              digests: seq<Digest>, i: nat)
    requires |paths| == |digests| && AddLayers(p, files, fs, paths, digests).Ok?
    requires i < |paths|
    ensures paths[i] in files
    ensures p.hash(digests[i].ty, files[paths[i]].Readable()) == digests[i].val
    decreases |paths|
  {
    if i > 0 {
      LayersMatchDigests(p, files, AddLayer(p, files, fs, paths[0], digests[0]).value, paths[1..], digests[1..], i - 1);
    }
  }

  predicate FailsAt(p: Platform, files: Files, ms: seq<ImageManifest>, i: nat, e: InstallError) {
    && i < |ms| && ConfigOf(p, files, ms[i]) == Err(e)
    && forall j | 0 <= j < i :: ForAnotherArch(p, files, ms[j])
  }

  lemma FailsAtShifted(p: Platform, files: Files, ms: seq<ImageManifest>, i: nat, e: InstallError)
    requires ms != [] && ForAnotherArch(p, files, ms[0])
    ensures FailsAt(p, files, ms[1..], i, e) <==> FailsAt(p, files, ms, i + 1, e)
  {}

  /** What is wrong with a list without a selection: the first configuration that is not for another
      architecture fails, or all are for another one. */
  lemma {:induction false} FirstArm64Fails(p: Platform, files: Files, ms: seq<ImageManifest>, e: InstallError)
    ensures FirstArm64(p, files, ms) == Err(e) <==>
            || (exists i: nat :: FailsAt(p, files, ms, i, e))
            || (e == NoImageForArch && forall j | 0 <= j < |ms| :: ForAnotherArch(p, files, ms[j]))
  {
    if ms != [] && ForAnotherArch(p, files, ms[0]) {
      FirstArm64Fails(p, files, ms[1..], e);
      if i: nat :| FailsAt(p, files, ms[1..], i, e) { FailsAtShifted(p, files, ms, i, e); }
      if i: nat :| FailsAt(p, files, ms, i, e) { FailsAtShifted(p, files, ms, i - 1, e); }
      assert (forall j | 0 <= j < |ms| :: ForAnotherArch(p, files, ms[j])) <==>
             forall j | 0 <= j < |ms[1..]| :: ForAnotherArch(p, files, ms[1..][j]) by {
        forall j | 0 < j < |ms| ensures ms[1..][j - 1] == ms[j] {}
      }
    } else if ms != [] {
      if FirstArm64(p, files, ms) == Err(e) { assert FailsAt(p, files, ms, 0, e); }
    }
  }

  /** Unpacking a readable layer on top of `below` gives `above`, and the layer hashes to its digest. */
  predicate LayerLink(p: Platform, files: Files, path: string, digest: Digest, below: Rootfs, above: Rootfs) {
    && path in files
    && var f, u := files[path], p.untar(below, files[path].data);
       && !u.Bad? && (u.Stopped? ==> u.used <= f.Limit()) && (u.Ended? ==> f.Sound())
       && above == u.fs && p.hash(digest.ty, f.Readable()) == digest.val
  }

  lemma AddLayerExactly(p: Platform, files: Files, fs: Rootfs, path: string, digest: Digest, above: Rootfs)
    ensures AddLayer(p, files, fs, path, digest) == Ok(above) <==> LayerLink(p, files, path, digest, fs, above)
  {}

  /** The file systems `fss` come about by unpacking one layer after the other, each on top of what the
      layers below it have given. */
  ghost predicate LayerChain(p: Platform, files: Files, paths: seq<string>, digests: seq<Digest>, fss: seq<Rootfs>) {
    && |paths| == |digests| && |fss| == |paths| + 1
    && forall i | 0 <= i < |paths| :: LayerLink(p, files, paths[i], digests[i], fss[i], fss[i + 1])
  }

  lemma LongerChain(p: Platform, files: Files, paths: seq<string>, digests: seq<Digest>, fss: seq<Rootfs>)
    requires |paths| == |digests| > 0 && |fss| == |paths| + 1
    ensures LayerChain(p, files, paths, digests, fss) <==>
            && LayerLink(p, files, paths[0], digests[0], fss[0], fss[1])
            && LayerChain(p, files, paths[1..], digests[1..], fss[1..])
  {
    if && LayerLink(p, files, paths[0], digests[0], fss[0], fss[1])
       && LayerChain(p, files, paths[1..], digests[1..], fss[1..]) {
      forall i | 0 <= i < |paths| ensures LayerLink(p, files, paths[i], digests[i], fss[i], fss[i + 1]) {
        if i > 0 {
          assert LayerLink(p, files, paths[1..][i - 1], digests[1..][i - 1], fss[1..][i - 1], fss[1..][i]);
        }
      }
    }
  }

  /** Adding layers succeeds exactly if there is such a chain, and gives its last file system. */
  lemma {:induction false} AddLayersChain(p: Platform, files: Files, fs: Rootfs,
                                          paths: seq<string>, digests: seq<Digest>)
    returns (fss: seq<Rootfs>)
    requires |paths| == |digests| && AddLayers(p, files, fs, paths, digests).Ok?
    ensures LayerChain(p, files, paths, digests, fss)
    ensures fss[0] == fs && fss[|paths|] == AddLayers(p, files, fs, paths, digests).value
    decreases |paths|
  {
    if paths == [] {
      fss := [fs];
    } else {
      var above := AddLayer(p, files, fs, paths[0], digests[0]).value;
      var rest := AddLayersChain(p, files, above, paths[1..], digests[1..]);
      fss := [fs] + rest;
      assert fss[1..] == rest;
      AddLayerExactly(p, files, fs, paths[0], digests[0], above);
      LongerChain(p, files, paths, digests, fss);
    }
  }

  /** When adding layers fails, the error is that of the first layer that cannot be added to what the
      layers before it have given. */
  lemma {:induction false} AddLayersFails(p: Platform, files: Files, fs: Rootfs,
                                          paths: seq<string>, digests: seq<Digest>)
    returns (i: nat, fss: seq<Rootfs>)
    requires |paths| == |digests| && AddLayers(p, files, fs, paths, digests).Err?
    ensures i < |paths| && LayerChain(p, files, paths[..i], digests[..i], fss) && fss[0] == fs
    ensures AddLayer(p, files, fss[i], paths[i], digests[i]) == Err(AddLayers(p, files, fs, paths, digests).error)
    decreases |paths|
  {
    var one := AddLayer(p, files, fs, paths[0], digests[0]);
    if one.Err? {
      i, fss := 0, [fs];
    } else {
      var rest;
      i, rest := AddLayersFails(p, files, one.value, paths[1..], digests[1..]);
      fss := [fs] + rest;
      AddLayerExactly(p, files, fs, paths[0], digests[0], one.value);
      assert paths[..i + 1][1..] == paths[1..][..i] && digests[..i + 1][1..] == digests[1..][..i] && fss[1..] == rest;
      LongerChain(p, files, paths[..i + 1], digests[..i + 1], fss);
      i := i + 1;
    }
  }

  lemma {:induction false} ChainAddsLayers(p: Platform, files: Files, paths: seq<string>, digests: seq<Digest>,
                                           fss: seq<Rootfs>)
    requires LayerChain(p, files, paths, digests, fss)
    ensures AddLayers(p, files, fss[0], paths, digests) == Ok(fss[|paths|])
    decreases |paths|
  {
    if paths != [] {
      LongerChain(p, files, paths, digests, fss);
      AddLayerExactly(p, files, fss[0], paths[0], digests[0], fss[1]);
      ChainAddsLayers(p, files, paths[1..], digests[1..], fss[1..]);
    }
  }

  /** Acceptance of an image: the root hash is that of the manifest list, the configuration is the
      first one for arm64 and hashes to its name, and there is one digest per layer, which is the
      hash of the layer under the digest's own algorithm. */
  lemma AcceptedImageIsAuthentic(p: Platform, files: Files, rot: seq<byte>)
    requires Installed(p, files, rot).Ok?
    ensures "manifest.json" in files && rot == p.hash(Sha256, files["manifest.json"].data)
    ensures var (m, c) := SelectedImage(p, files, Some(rot)).value;
            && c == Installed(p, files, rot).value.0 && c.arch == "arm64"
            && m.config in files && NamedHash(m.config) == Ok(p.hash(Sha256, files[m.config].data))
            && |m.layers| == |c.diffIds|
            && forall i | 0 <= i < |m.layers| ::
                 && m.layers[i] in files
                 && p.hash(c.diffIds[i].ty, files[m.layers[i]].Readable()) == c.diffIds[i].val
  {
    var (m, c) := SelectedImage(p, files, Some(rot)).value;
    var ms := ManifestList(p, files, Some(rot)).value;
    FirstArm64Exact(p, files, ms, m, c);
    ConfigIsNamedByHash(p, files, m);
    forall i | 0 <= i < |m.layers|
      ensures m.layers[i] in files && p.hash(c.diffIds[i].ty, files[m.layers[i]].Readable()) == c.diffIds[i].val
    {
      LayersMatchDigests(p, files, map[], m.layers, c.diffIds, i);
    }
  }

  /** The root file system of an accepted image is what unpacking its layers gives, the first into an
      empty directory and every other one on top of those before it. */
  lemma RootfsIsLayersInOrder(p: Platform, files: Files, rot: seq<byte>) returns (fss: seq<Rootfs>)
    requires Installed(p, files, rot).Ok?
    ensures var layers := SelectedImage(p, files, Some(rot)).value.0.layers;
            && |fss| == |layers| + 1 && fss[0] == map[] && fss[|layers|] == Installed(p, files, rot).value.1
            && forall i | 0 <= i < |layers| ::
                 && layers[i] in files
                 && !p.untar(fss[i], files[layers[i]].data).Bad?
                 && fss[i + 1] == p.untar(fss[i], files[layers[i]].data).fs
  {
    var (m, c) := SelectedImage(p, files, Some(rot)).value;
    fss := AddLayersChain(p, files, map[], m.layers, c.diffIds);
    var layers := m.layers;
    forall i | 0 <= i < |layers|
      ensures layers[i] in files && !p.untar(fss[i], files[layers[i]].data).Bad?
      ensures fss[i + 1] == p.untar(fss[i], files[layers[i]].data).fs
    {
      assert LayerLink(p, files, layers[i], c.diffIds[i], fss[i], fss[i + 1]);
    }
  }

  /** And nothing more is asked: an image with such a manifest list, such a configuration and such a
      chain of layers is accepted, with that configuration and the last file system of the chain. */
  lemma AuthenticImageIsAccepted(p: Platform, files: Files, rot: seq<byte>, ms: seq<ImageManifest>, i: nat,
                                 c: ContainerConfig, fss: seq<Rootfs>)
    requires "manifest.json" in files && files["manifest.json"].Sound()
    requires rot == p.hash(Sha256, files["manifest.json"].data)
    requires p.utf8(files["manifest.json"].data).Some?
             && p.manifests(p.utf8(files["manifest.json"].data).value) == Some(ms)
    requires i < |ms| && FirstAt(p, files, ms, i, ms[i], c)
    requires LayerChain(p, files, ms[i].layers, c.diffIds, fss) && fss[0] == map[]
    ensures Installed(p, files, rot) == Ok((c, fss[|fss| - 1]))
  {
    FirstArm64Exact(p, files, ms, ms[i], c);
    ChainAddsLayers(p, files, ms[i].layers, c.diffIds, fss);
  }

  // ---------------------------------------------------------------- the root hash determines it all

  /** The byte strings that installing from these files may hash. */
  function HashedFrom(files: Files): set<seq<byte>> {
    set path | path in files :: files[path].Readable()
  }

  ghost predicate CollisionFree(p: Platform, s: set<seq<byte>>) {
    forall ty, x, y {:trigger p.hash(ty, x), p.hash(ty, y)} |
      x in s && y in s && p.hash(ty, x) == p.hash(ty, y) :: x == y
  }

  /** An unpacker is a reader: when it stops at an end marker, what it does depends only on the bytes it
      has consumed. Nothing is asked of an unpacker that reads to the end of the file. */
  ghost predicate Streaming(p: Platform) {
    forall fs, d, d' {:trigger p.untar(fs, d), p.untar(fs, d')} ::
      p.untar(fs, d).Stopped? && p.untar(fs, d).used <= |d| && d[..p.untar(fs, d).used] <= d'
      ==> p.untar(fs, d') == p.untar(fs, d)
  }

  ghost predicate Comparable(p: Platform, f: Files, g: Files) {
    Streaming(p) && CollisionFree(p, HashedFrom(f) + HashedFrom(g))
  }

  lemma SameHashSameBytes(p: Platform, f: Files, g: Files, a: string, b: string, ty: HashType)
    requires CollisionFree(p, HashedFrom(f) + HashedFrom(g))
    requires a in f && b in g && p.hash(ty, f[a].Readable()) == p.hash(ty, g[b].Readable())
    ensures f[a].Readable() == g[b].Readable()
  {}

  lemma SoundIsReadable(f: Stored)
    requires f.Sound()
    ensures f.Readable() == f.data
  {}

  lemma ConfigDetermined(p: Platform, f: Files, g: Files, m: ImageManifest)
    requires CollisionFree(p, HashedFrom(f) + HashedFrom(g))
    requires ConfigOf(p, f, m).Ok? && ConfigOf(p, g, m).Ok?
    ensures ConfigOf(p, f, m) == ConfigOf(p, g, m)
  {
    SoundIsReadable(f[m.config]);
    SoundIsReadable(g[m.config]);
    SameHashSameBytes(p, f, g, m.config, m.config, Sha256);
  }

  lemma {:induction false} SelectionDetermined(p: Platform, f: Files, g: Files, ms: seq<ImageManifest>)
    requires CollisionFree(p, HashedFrom(f) + HashedFrom(g))
    requires FirstArm64(p, f, ms).Ok? && FirstArm64(p, g, ms).Ok?
    ensures FirstArm64(p, f, ms) == FirstArm64(p, g, ms)
  {
    if ms != [] {
      ConfigDetermined(p, f, g, ms[0]);
      if ConfigOf(p, f, ms[0]).value.arch != "arm64" {
        SelectionDetermined(p, f, g, ms[1..]);
      }
    }
  }

  /** An unpacker that stopped within what can be read does the same on a file with the same readable
      bytes. */
  lemma StoppedAlike(p: Platform, f: Stored, g: Stored, fs: Rootfs)
    requires Streaming(p) && f.Readable() == g.Readable()
    requires p.untar(fs, f.data).Stopped? && p.untar(fs, f.data).used <= f.Limit()
    ensures p.untar(fs, g.data) == p.untar(fs, f.data)
  {
    var used := p.untar(fs, f.data).used;
    assert f.data[..used] == f.Readable()[..used] == g.data[..used];
  }

  lemma LayerDetermined(p: Platform, f: Files, g: Files, fs: Rootfs, path: string, digest: Digest)
    requires Comparable(p, f, g)
    requires AddLayer(p, f, fs, path, digest).Ok? && AddLayer(p, g, fs, path, digest).Ok?
    ensures AddLayer(p, f, fs, path, digest) == AddLayer(p, g, fs, path, digest)
    ensures f[path].Readable() == g[path].Readable()
  {
    SameHashSameBytes(p, f, g, path, path, digest.ty);
    if p.untar(fs, f[path].data).Stopped? {
      StoppedAlike(p, f[path], g[path], fs);
    } else if p.untar(fs, g[path].data).Stopped? {
      StoppedAlike(p, g[path], f[path], fs);
    } else {
      SoundIsReadable(f[path]);
      SoundIsReadable(g[path]);
    }
  }

  lemma {:induction false} LayersDetermined(p: Platform, f: Files, g: Files, fs: Rootfs,
                                            paths: seq<string>, digests: seq<Digest>)
    requires Comparable(p, f, g)
    requires |paths| == |digests|
    requires AddLayers(p, f, fs, paths, digests).Ok? && AddLayers(p, g, fs, paths, digests).Ok?
    ensures AddLayers(p, f, fs, paths, digests) == AddLayers(p, g, fs, paths, digests)
    ensures forall i | 0 <= i < |paths| ::
              paths[i] in f && paths[i] in g && f[paths[i]].Readable() == g[paths[i]].Readable()
    decreases |paths|
  {
    if paths != [] {
      LayerDetermined(p, f, g, fs, paths[0], digests[0]);
      LayersDetermined(p, f, g, AddLayer(p, f, fs, paths[0], digests[0]).value, paths[1..], digests[1..]);
      forall i | 0 <= i < |paths|
        ensures paths[i] in f && paths[i] in g && f[paths[i]].Readable() == g[paths[i]].Readable()
      {
        if i > 0 { assert paths[i] == paths[1..][i - 1]; }
      }
    }
  }

  /** The chain of trust. If two images are accepted under one root hash, and no two different byte
      strings among their files collide, then they select the same manifest, have the same
      configuration, the same bytes in every layer as far as those can be read, and give the same
      root file system. Nothing else about the images matters. */
  lemma RootHashDeterminesInstallation(p: Platform, f: Files, g: Files, rot: seq<byte>)
    requires Comparable(p, f, g)
    requires Installed(p, f, rot).Ok? && Installed(p, g, rot).Ok?
    ensures Installed(p, f, rot) == Installed(p, g, rot)
    ensures SelectedImage(p, f, Some(rot)) == SelectedImage(p, g, Some(rot))
    ensures forall path <- SelectedImage(p, f, Some(rot)).value.0.layers ::
              path in f && path in g && f[path].Readable() == g[path].Readable()
  {
    SoundIsReadable(f[MANIFEST]);
    SoundIsReadable(g[MANIFEST]);
    SameHashSameBytes(p, f, g, MANIFEST, MANIFEST, Sha256);
    SelectionDetermined(p, f, g, ManifestList(p, f, Some(rot)).value);
    var (m, c) := SelectedImage(p, f, Some(rot)).value;
    LayersDetermined(p, f, g, map[], m.layers, c.diffIds);
  }

  /** Success with a root hash implies the same selection without one. */
  lemma RootHashOnlyRestricts(p: Platform, files: Files, rot: seq<byte>)
    requires SelectedImage(p, files, Some(rot)).Ok?
    ensures SelectedImage(p, files, None) == SelectedImage(p, files, Some(rot))
  {}

  /** `validate` after a successful `install` yields the installed configuration; a second `install`
      into the same directory is refused and leaves it as it is. */
  method InstallThenValidate(p: Platform, rot: seq<byte>, image: seq<byte>,
                             scripts: string -> seq<Poll>, later: string -> seq<Poll>)
    returns (first: Result<ContainerConfig, InstallError>, again: Result<ContainerConfig, InstallError>,
             checked: Result<ContainerConfig, InstallError>)
    ensures first.Ok? ==> checked == first
    ensures again == Err(DirCreation)
  {
    var installer := new Installer();
    first := installer.Install(p, rot, image, scripts);
    again := installer.Install(p, rot, image, later);
    checked := installer.Validate(p, later);
    if first.Ok? {
      RootHashOnlyRestricts(p, p.unpack(image).value, rot);
    }
  }
}
