/** The public course records (app/models/course.py): a course is modules of lessons. */
module Course {

  /** A lesson with its generated text and its further-reading list. */
  datatype Lesson = Lesson(title: string, content: string, resources: seq<string>)

  /** A module: a title and its lessons in order. */
  datatype Module = Module(title: string, lessons: seq<Lesson>)

  /** The response the course generator returns to its caller. */
  datatype CourseResponse = CourseResponse(
    courseTitle: string,
    description: string,
    modules: seq<Module>,
    references: seq<string>)
}
