/** Mounting a dataset's directory into the nginx container of the docker-compose file
    (`backend/src/dataset_creation/add_volume_to_nginx_service.py`). */
module Compose {
  import opened Wrappers

  /** One service of the compose file: its `volumes` list, if it has one, and its other
      settings. */
  datatype Service = Service(volumes: Option<seq<string>>, settings: map<string, string>)

  /** The mount the script looks for and appends: `../<d>:/usr/share/nginx/<d>`. */
  function Mount(directory: string): string
  {
    "../" + directory + ":/usr/share/nginx/" + directory
  }

  /** The mount the script writes when the service has no `volumes` key. */
  function FirstMount(directory: string): string
  {
    directory + ":/usr/share/nginx/" + directory
  }

  /** The nginx service after `search_for_nginx_volumes` as written. */
  function WithVolume(s: Service, directory: string): Service
  {
    match s.volumes
    case Some(vs) => if Mount(directory) in vs then s else s.(volumes := Some(vs + [Mount(directory)]))
    case None => s.(volumes := Some([FirstMount(directory)]))
  }

  /** The nginx service when the same mount is written in both cases. */
  function WithVolumeCorrected(s: Service, directory: string): Service
  {
    match s.volumes
    case Some(vs) => if Mount(directory) in vs then s else s.(volumes := Some(vs + [Mount(directory)]))
    case None => s.(volumes := Some([Mount(directory)]))
  }

  /** The service keeps its settings and its existing volumes, in order, and gains at
      most one volume; with a `volumes` list it ends up holding the `../` mount exactly
      once more than absent, and running again changes nothing. */
  lemma WithVolumeMeaning(s: Service, directory: string)
    ensures var t := WithVolume(s, directory);
      t.settings == s.settings && t.volumes.Some? &&
      (s.volumes.Some? ==>
        Mount(directory) in t.volumes.value &&
        s.volumes.value <= t.volumes.value && |t.volumes.value| <= |s.volumes.value| + 1 &&
        WithVolume(t, directory) == t) &&
      (s.volumes.None? ==> t.volumes.value == [FirstMount(directory)])
  {
  }

  /** Without a `volumes` list, a second run mounts the directory a second time, on the
      same container path, with a different host path. */
  lemma SecondRunMountsTwice(s: Service, directory: string)
    requires s.volumes.None?
    ensures var twice := WithVolume(WithVolume(s, directory), directory);
      twice.volumes == Some([FirstMount(directory), Mount(directory)]) &&
      FirstMount(directory) != Mount(directory) &&
      FirstMount(directory)[|directory|..] == Mount(directory)[|directory| + 3..]
  {
    assert |FirstMount(directory)| != |Mount(directory)|;
    assert [FirstMount(directory)] + [Mount(directory)] == [FirstMount(directory), Mount(directory)];
  }

  /** The corrected service always holds the `../` mount, keeps everything it had, and
      a second run changes nothing, whether or not it had a `volumes` list. */
  lemma WithVolumeCorrectedIdempotent(s: Service, directory: string)
    ensures var t := WithVolumeCorrected(s, directory);
      t.settings == s.settings && t.volumes.Some? && Mount(directory) in t.volumes.value &&
      (s.volumes.Some? ==> s.volumes.value <= t.volumes.value) &&
      WithVolumeCorrected(t, directory) == t
  {
  }

  /** The services of a compose file, updated in place. */
  class DockerCompose {
    var services: map<string, Service>

    constructor (services: map<string, Service>)
      ensures this.services == services
    {
      this.services := services;
    }

    /** `search_for_nginx_volumes`: only the `nginx` service changes. */
    method SearchForNginxVolumes(directory: string)
      modifies this
      ensures "nginx" in old(services) ==> services == old(services)["nginx" := WithVolume(old(services)["nginx"], directory)]
      ensures "nginx" !in old(services) ==> services == old(services)
    {
      if "nginx" in services {
        var nginx := services["nginx"];
        match nginx.volumes {
          case Some(vs) =>
            if Mount(directory) !in vs {
              services := services["nginx" := nginx.(volumes := Some(vs + [Mount(directory)]))];
            }
          case None =>
            services := services["nginx" := nginx.(volumes := Some([FirstMount(directory)]))];
        }
      }
    }
  }

  /** Every service other than `nginx` is left as it was, and the key set is kept. */
  lemma OnlyNginxChanges(before: map<string, Service>, directory: string)
    requires "nginx" in before
    ensures var after := before["nginx" := WithVolume(before["nginx"], directory)];
      after.Keys == before.Keys &&
      forall k :: k in before && k != "nginx" ==> after[k] == before[k]
  {
  }

  predicate IsDirectoryFlag(arg: string)
  {
    arg == "-d" || arg == "--directory"
  }

  /** The value of the first `-d` flag. */
  function FirstDirectory(flags: seq<(string, string)>): Option<string>
  {
    if flags == [] then None
    else if IsDirectoryFlag(flags[0].0) then Some(flags[0].1)
    else FirstDirectory(flags[1..])
  }

  /** There is a directory exactly when some flag is `-d`, and it is the value of the
      first such flag. */
  lemma {:induction false} FirstDirectoryMeaning(flags: seq<(string, string)>)
    ensures FirstDirectory(flags).None? <==> forall i :: 0 <= i < |flags| ==> !IsDirectoryFlag(flags[i].0)
    ensures FirstDirectory(flags).Some? ==>
      exists i :: (0 <= i < |flags| && IsDirectoryFlag(flags[i].0) &&
        FirstDirectory(flags).value == flags[i].1 && forall j :: 0 <= j < i ==> !IsDirectoryFlag(flags[j].0))
  {
    if flags != [] && !IsDirectoryFlag(flags[0].0) {
      FirstDirectoryMeaning(flags[1..]);
      if FirstDirectory(flags).Some? {
        var i :| 0 <= i < |flags[1..]| && IsDirectoryFlag(flags[1..][i].0) &&
          FirstDirectory(flags[1..]).value == flags[1..][i].1 && forall j :: 0 <= j < i ==> !IsDirectoryFlag(flags[1..][j].0);
        assert forall j :: 0 <= j < i + 1 ==> !IsDirectoryFlag(flags[j].0) by {
          forall j | 0 <= j < i + 1 ensures !IsDirectoryFlag(flags[j].0) {
            if j > 0 { assert flags[j] == flags[1..][j - 1]; }
          }
        }
      }
    }
  }

  /** `parsing`: the getopt pairs scanned until the first `-d`. */
  method Parsing(flags: seq<(string, string)>) returns (directory: Option<string>)
    ensures directory == FirstDirectory(flags)
  {
    for i := 0 to |flags|
      invariant FirstDirectory(flags[i..]) == FirstDirectory(flags)
    {
      assert flags[i..][1..] == flags[i + 1..];
      var (arg, val) := flags[i];
      if arg == "-d" || arg == "--directory" {
        return Some(val);
      }
    }
    return None;
  }
}
