/** The container start-up script that prepares the kubeconfig: it loads the
    configuration (base64 from `KUBE_CONFIG`, else the file at the default
    path), patches it when `PATCH_LOCAL_CLUSTER` says "true", saves it to the
    patched path and points `KUBECONFIG` there. */
module PrepareKubeconfig {
  import opened Wrappers
  import opened Kubeconfig
  import Text

  const OriginalPath: string := "/root/.kube/config"
  const PatchedPath: string := "/app/clue_deployer/kubeconfig_patched"

  /** What the script leaves behind: the saved configuration with `KUBECONFIG`
      set to it, the status of `sys.exit`, or an exception raised by the
      patch loop that ends the script before anything is saved. */
  datatype Outcome = Saved(config: Config, kubeconfig: string) | Exit(status: int) | Raised

  /** `PATCH_CONFIG and PATCH_CONFIG.lower() == "true"`. */
  predicate PatchRequested(patchEnv: Option<string>) {
    patchEnv.Some? && patchEnv.value != [] && Text.Lower(patchEnv.value) == "true"
  }

  /** The `__main__` block.  `file` is the parsed file at `OriginalPath`. */
  method Prepare(b64: Option<string>, decode: string -> Option<Config>, file: Option<Config>, patchEnv: Option<string>)
    returns (r: Outcome)
    ensures LoadConfig(b64, decode, file).Err? <==> r == Exit(1)
    ensures r == Raised <==> LoadConfig(b64, decode, file).Ok? && PatchRequested(patchEnv) &&
                             Raises(LoadConfig(b64, decode, file).value)
    ensures LoadConfig(b64, decode, file).Ok? && r != Raised ==>
              var loaded := LoadConfig(b64, decode, file).value;
              r == Saved(if PatchRequested(patchEnv) then Patched(loaded) else loaded, PatchedPath)
  {
    var loaded := LoadConfig(b64, decode, file);
    if loaded.Err? {
      return Exit(loaded.error);
    }
    var config := loaded.value;
    if PatchRequested(patchEnv) {
      var changed, raised;
      config, changed, raised := PatchConfig(config);
      if raised {
        return Raised;
      }
    }
    return Saved(config, PatchedPath);
  }

  /** When the script patches, the saved configuration has no local cluster
      left, and running the script again on its own output changes nothing. */
  lemma SavedIsRemote(b64: Option<string>, decode: string -> Option<Config>, file: Option<Config>)
    requires LoadConfig(b64, decode, file).Ok?
    ensures var saved := Patched(LoadConfig(b64, decode, file).value);
            !HasLocalCluster(saved) && Patched(saved) == saved
  {
    PatchedHasNoLocalCluster(LoadConfig(b64, decode, file).value);
    PatchIdempotent(LoadConfig(b64, decode, file).value);
  }
}
