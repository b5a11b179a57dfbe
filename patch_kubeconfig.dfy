/** The stand-alone kubeconfig patch script: it loads the configuration
    (base64 from `KUBE_CONFIG`, else the file named by `KUBECONFIG_FILE`,
    by default the user's kubeconfig), patches its local clusters, always
    saves the result and points `KUBECONFIG` there. */
module PatchKubeconfig {
  import opened Wrappers
  import opened Kubeconfig
  import Seqs

  const DefaultPath: string := "/root/.kube/config"
  const PatchedPath: string := "/app/clue_deployer/kubeconfig_patched"

  /** What the script leaves behind: the saved configuration, `KUBECONFIG`,
      and whether it reported a change; the status of `sys.exit`; or an
      exception raised by the patch loop before anything is saved. */
  datatype Outcome = Saved(config: Config, kubeconfig: string, changed: bool) | Exit(status: int) | Raised

  /** `os.getenv("KUBECONFIG_FILE", DEFAULT_KUBECONFIG)`. */
  function KubeconfigPath(fileEnv: Option<string>): (path: string)
    ensures fileEnv.None? ==> path == DefaultPath
    ensures fileEnv.Some? ==> path == fileEnv.value
  {
    fileEnv.GetOr(DefaultPath)
  }

  /** `patch_kubeconfig`.  `files` gives the parsed file at a path, None when
      it does not exist. */
  method Patch(b64: Option<string>, decode: string -> Option<Config>, files: string -> Option<Config>,
              fileEnv: Option<string>)
    returns (r: Outcome)
    ensures var loaded := LoadConfig(b64, decode, files(KubeconfigPath(fileEnv)));
            (loaded.Err? <==> r == Exit(1)) &&
            (r == Raised <==> loaded.Ok? && Raises(loaded.value)) &&
            (loaded.Ok? && !Raises(loaded.value) ==>
               r.Saved? && r.config == Patched(loaded.value) && r.kubeconfig == PatchedPath &&
               (r.changed <==> HasLocalCluster(loaded.value)))
  {
    var loaded := LoadConfig(b64, decode, files(KubeconfigPath(fileEnv)));
    if loaded.Err? {
      return Exit(loaded.error);
    }
    var config, changed, raised := PatchConfig(loaded.value);
    if raised {
      return Raised;
    }
    return Saved(config, PatchedPath, changed);
  }

  /** A configuration without local clusters is saved as it was, and the
      script reports no change. */
  lemma RemoteConfigUnchanged(config: Config)
    requires !HasLocalCluster(config)
    ensures Patched(config) == config
  {
    if config.clusters.Some? {
      var cs := config.clusters.value;
      forall i | 0 <= i < |cs| ensures PatchedClusters(cs)[i] == cs[i] {
      }
      Seqs.Pointwise(PatchedClusters(cs), cs);
    }
  }
}
