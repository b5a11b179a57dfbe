/** The service's cluster endpoints: `POST /api/cluster/config` stores an
    uploaded kubeconfig, patched for a local cluster unless the request says
    otherwise, and `GET /api/cluster/status` reports whether one is stored.
    The patched file and the two environment variables the upload sets are
    the state; base64 decoding with YAML parsing is a parameter, and whether
    saving succeeds is one too. */
module ClusterRouter {
  import opened Wrappers
  import opened Kubeconfig
  import Text

  const PatchedPath: string := "/app/clue_deployer/kubeconfig_patched"

  /** `KubeConfigRequest`; `patch_local_cluster` defaults to true. */
  datatype KubeConfigRequest = KubeConfigRequest(kubeconfig: string, patchLocalCluster: bool)

  const DefaultPatchLocalCluster: bool := true

  /** The `PATCH_LOCAL_CLUSTER` value the status endpoint reads as "patch":
      "true" in any letter case, and an unset variable. */
  predicate PatchLocalSetting(env: Option<string>) {
    Text.Lower(env.GetOr("true")) == "true"
  }

  /** Unset, the setting reads as patching; the two values the upload writes
      read back as what was requested. */
  lemma PatchLocalSettingRoundTrip(patch: bool)
    ensures PatchLocalSetting(None)
    ensures PatchLocalSetting(Some(if patch then "true" else "false")) == patch
  {
    assert Text.Lower("true") == "true";
    assert Text.Lower("false")[0] == 'f';
  }

  class ClusterService {
    /** The file at `PatchedPath`: None until a kubeconfig is saved. */
    var patchedFile: Option<Config>
    var kubeconfigEnv: Option<string>
    var patchLocalEnv: Option<string>

    constructor (patchedFile: Option<Config>, kubeconfigEnv: Option<string>, patchLocalEnv: Option<string>)
      ensures this.patchedFile == patchedFile && this.kubeconfigEnv == kubeconfigEnv
      ensures this.patchLocalEnv == patchLocalEnv
    {
      this.patchedFile := patchedFile;
      this.kubeconfigEnv := kubeconfigEnv;
      this.patchLocalEnv := patchLocalEnv;
    }

    /** `cluster_status`: whether the patched file exists, and the patch
        setting. */
    function Status(): (r: (bool, bool))
      reads this
      ensures r.0 <==> patchedFile.Some?
      ensures patchLocalEnv.None? ==> r.1
    {
      (patchedFile.Some?, PatchLocalSetting(patchLocalEnv))
    }

    /** `upload_kubeconfig`: an undecodable kubeconfig is refused with 400 and
        a failure to save with 500; an exception of the patch loop, which no
        `try` catches, is answered 500 by the framework.  Otherwise the
        configuration, with its local clusters patched when asked, is saved
        and the environment points at it. */
    method Upload(req: KubeConfigRequest, decode: string -> Option<Config>, saveOk: bool)
      returns (r: Result<string, int>)
      modifies this
      ensures decode(req.kubeconfig).None? ==> r == Err(400) && unchanged(this)
      ensures decode(req.kubeconfig).Some? && req.patchLocalCluster && Raises(decode(req.kubeconfig).value) ==>
                r == Err(500) && unchanged(this)
      ensures decode(req.kubeconfig).Some? && !saveOk ==> r == Err(500) && unchanged(this)
      ensures decode(req.kubeconfig).Some? && saveOk && !(req.patchLocalCluster && Raises(decode(req.kubeconfig).value)) ==>
                var config := decode(req.kubeconfig).value;
                r == Ok("kubeconfig uploaded") &&
                patchedFile == Some(if req.patchLocalCluster then Patched(config) else config) &&
                kubeconfigEnv == Some(PatchedPath) &&
                patchLocalEnv == Some(if req.patchLocalCluster then "true" else "false") &&
                Status() == (true, req.patchLocalCluster)
    {
      var decoded := decode(req.kubeconfig);
      if decoded.None? {
        return Err(400);
      }
      var config := decoded.value;
      if req.patchLocalCluster {
        var changed, raised;
        config, changed, raised := PatchConfig(config);
        if raised {
          return Err(500);
        }
      }
      if !saveOk {
        return Err(500);
      }
      patchedFile := Some(config);
      kubeconfigEnv := Some(PatchedPath);
      patchLocalEnv := Some(if req.patchLocalCluster then "true" else "false");
      PatchLocalSettingRoundTrip(req.patchLocalCluster);
      return Ok("kubeconfig uploaded");
    }
  }
}
