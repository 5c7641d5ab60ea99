/** The immutable inputs shared by both handlers: the course catalog, the
    question bank and a submitted form, plus the two Python lookups
    `dict.get` and the exceptions the core can raise. */
module Catalog {

  type Topic = string

  /** One quiz question as stored in the question bank. */
  datatype Question = Question(id: string, prompt: string, options: seq<string>, answer: string)

  /** course name -> experience level ("beginner") -> ordered topic list */
  type CourseCatalog = map<string, map<string, seq<Topic>>>

  /** course name -> ordered question list */
  type QuestionBank = map<string, seq<Question>>

  /** A submitted form: question id -> selected option; a missing key is an unanswered question. */
  type Form = map<string, string>

  datatype Option<T> = None | Some(value: T)

  /** The Python exceptions the core can raise. */
  datatype PyError = KeyError(key: string) | ZeroDivisionError

  datatype Result<T> = Ok(value: T) | Err(error: PyError)

  /** `m.get(k)`: the value under `k`, or None when `k` is absent. */
  function Get<K, V>(m: map<K, V>, k: K): Option<V>
  {
    if k in m then Some(m[k]) else None
  }

  /** `COURSES.get(course, {}).get("beginner", [])`: never fails; an unknown
      course or a course without a beginner list gives no topics. */
  function BeginnerTopics(courses: CourseCatalog, course: string): seq<Topic>
  {
    if course in courses && "beginner" in courses[course] then courses[course]["beginner"] else []
  }

  /** `QUESTIONS.get(course, [])`: an unknown course has no questions. */
  function QuizFor(bank: QuestionBank, course: string): seq<Question>
  {
    if course in bank then bank[course] else []
  }
}
