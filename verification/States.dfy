/** The last known state of a backend, as written by the scraper and read by the scheduler. */
module States {

  datatype ModelStatus = ModelWarm | ModelCold

  datatype BackendState = BackendState(
    modelStatus: ModelStatus, loadedModels: seq<string>, vramUsedBytes: int, vramUsedPct: real,
    queueDepth: int, inflight: int)

  type Store = map<string, BackendState>
}
