/** The cooperative background job (WorkerThread, tabacchi/utility.py:241-263): a status that the
    owner sets to STOPPED, an update() that the job calls at each step and that raises StopIteration
    once the job is stopped, and setError. The thread itself is not modelled: the job is run as a
    method, and "stop" happens at the point a parameter says. */
module Worker {
  import opened Wrappers

  const STARTED: int := 0
  const ERROR: int := 1
  const STOPPED: int := 2
  const DONE: int := 3

  class WorkerThread {
    var status: int
    var error: Option<Error>
    /** The steps reported to the progress dialog. */
    var progress: nat

    constructor ()
      ensures status == STARTED && error == None && progress == 0
    {
      status, error, progress := STARTED, None, 0;
    }

    /** stop(): from now on every update() raises. */
    method Stop()
      modifies this`status
      ensures status == STOPPED
    {
      status := STOPPED;
    }

    /** update(): raises StopIteration (the result true) when stopped, otherwise advances the progress. */
    method Update() returns (stopIteration: bool)
      modifies this`progress
      ensures stopIteration <==> status == STOPPED
      ensures progress == if stopIteration then old(progress) else old(progress) + 1
    {
      stopIteration := status == STOPPED;
      if !stopIteration {
        progress := progress + 1;
      }
    }

    /** setError(e): remembers the error and reports ERROR. */
    method SetError(e: Error)
      modifies this`status, this`error
      ensures status == ERROR && error == Some(e)
    {
      error := Some(e);
      status := ERROR;
    }
  }
}
