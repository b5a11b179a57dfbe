/** The deployment request the web UI posts and the queues hold
    (`clue_deployer/src/models/deploy_request.py`). */
module DeployRequests {

  datatype DeployRequest = DeployRequest(
    experimentName: string,
    sutName: string,
    nIterations: int,
    deployOnly: bool)

  /** A request with the declared defaults `n_iterations = 1` and `deploy_only = False`. */
  function NewDeployRequest(experimentName: string, sutName: string): (r: DeployRequest)
    ensures r.nIterations == 1 && !r.deployOnly
    ensures r.experimentName == experimentName && r.sutName == sutName
  {
    DeployRequest(experimentName, sutName, 1, false)
  }
}
