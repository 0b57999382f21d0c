/** `DownloadManager`: creates jobs and keeps them in the shared jobs dictionary, and clears
    out the jobs that have ended. */
module Manager {
  import opened Executor
  import opened Jobs
  import Links
  import SaveAs

  /** The statuses of jobs that `Cleanup` removes. */
  predicate HasEnded(status: DownloadStatus) {
    status == Completed || status == Failed
  }

  class DownloadManager {
    const downloadTaskFactory: DownloadTaskFactory
    /** `DownloadJobsDictionary`, keyed by job id. */
    var jobs: map<JobId, DownloadJob>

    constructor (jobs: map<JobId, DownloadJob>, downloadTaskFactory: DownloadTaskFactory)
      ensures this.jobs == jobs && this.downloadTaskFactory == downloadTaskFactory
    {
      this.jobs := jobs;
      this.downloadTaskFactory := downloadTaskFactory;
    }

    /** `CreateDownloadJob`. The id generator's and the clock's values are the parameters `id`
        and `ticks`. The new job is stored under its id, replacing any job with that id, and
        returned not started. */
    method CreateDownloadJob(link: Links.Link, saveAsFile: SaveAs.SaveAsFile, id: JobId, ticks: int)
      returns (job: DownloadJob)
      modifies this
      ensures fresh(job)
      ensures job.id == id && job.link == link && job.createdTicks == ticks
      ensures job.downloadTaskFactory == downloadTaskFactory
      ensures job.State() == JobState(saveAsFile, UnknownContentLength, 0, "", NotCreated, [], true)
      ensures job.Status() == NotStarted
      ensures jobs == old(jobs)[id := job]
    {
      job := new DownloadJob(id, link, saveAsFile, ticks, downloadTaskFactory);
      jobs := jobs[id := job];
    }

    /** `Cleanup`: removes every job that has completed or failed and keeps the others,
        unchanged, under their ids. */
    method Cleanup()
      modifies this
      ensures forall id :: id in jobs <==> id in old(jobs) && !HasEnded(old(jobs)[id].Status())
      ensures forall id :: id in jobs ==> jobs[id] == old(jobs)[id]
      ensures forall id :: id in jobs ==> !HasEnded(jobs[id].Status())
    {
      jobs := map id | id in jobs && !HasEnded(jobs[id].Status()) :: jobs[id];
    }
  }
}
