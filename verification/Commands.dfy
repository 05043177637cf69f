/** Commands given to other programs. */
module Commands {
  /** A command works, fails, or fails after having taken effect. */
  datatype Outcome = Works | Fails | FailsLate
}
