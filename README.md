# Course platform client — a Dafny model of its decision and data logic

The system is a React client for an online course platform. It has four kinds of users:

- visitors, who browse the catalog;
- students, who enrol, follow their courses and take a test;
- teachers, who manage their courses and edit each course's content (modules holding lessons);
- administrators, who manage users, categories and the audit log.

Most of each screen is rendering and HTTP plumbing. This project models the logic inside the event handlers and effects:

- **the role gate**: the role taken from the stored session, the route table it exposes, the landing redirect, the menu and the login switch;
- **the form validators**: person names, phone numbers, e-mail shape, password strength, category names and descriptions;
- **the content-tree editor**: adding, renaming and deleting modules and lessons by id, and normalising the loaded document;
- **the listing views**: the catalog with its enabled filter, pages and enrolled set; the preview with its teaser module; the viewer; "my courses"; the teacher's course table; the course dialog's multipart field list; the audit log's newest-first order and tag colours;
- **YouTube id extraction**: the lesson renderers' regular expression, written out as the leftmost match a backtracking engine finds.

Conventions:

- HTTP replies, confirmation dialogs, freshly generated identifiers and the browser's storage are inputs.
- Navigation, requests and toasts are outputs.
- Each screen whose handlers update component state is a `class`. Its fields are that state and its methods are the handlers.
- The pure expressions inside the handlers are functions, with lemmas stating what the screen relies on.

Files, one module each:

| file | module | screen |
|---|---|---|
| common.dfy | `Common` | JavaScript truthiness, `trim`, `toUpperCase`, `slice`, `filter`, error-message fallbacks |
| session.dfy | `Session` | the stored session and its role |
| router.dfy | `Router` | `Router.jsx` |
| navbar.dfy | `NavBar` | `NavBar.jsx` |
| login.dfy | `Login` | `Login.jsx` |
| validators.dfy | `Validators` | the regular expressions of the forms |
| profile.dfy | `Profile` | `UserProfile.jsx` |
| register.dfy | `Register` | `Register.jsx` |
| register_teacher.dfy | `RegisterTeacher` | `RegisterTeacher.jsx` |
| reset_password.dfy | `ResetPassword` | `ResetPassword.jsx` |
| request_reset.dfy | `RequestReset` | `RequestPasswordReset.jsx` |
| category_modal.dfy | `CategoryModal` | `CategoryModal.jsx` |
| user_management.dfy | `UserManagement` | `UserManagement.jsx` |
| courses.dfy | `Courses` | the course record, the image rule and the shared list filters |
| content.dfy | `CourseContent` | the content document and its tree edits |
| content_editor.dfy | `ContentEditor` | `CourseContentEditor.jsx` |
| youtube.dfy | `YouTube` | the video-id regular expression |
| lesson_view.dfy | `LessonView` | `renderLessonContent` of the preview and the viewer |
| catalog.dfy | `CourseCatalog` | `CourseCatalog.jsx` |
| course_preview.dfy | `CoursePreview` | `CoursePreview.jsx` |
| course_viewer.dfy | `CourseViewer` | `CourseViewer.jsx` |
| my_courses.dfy | `MyCourses` | `MyCourses.jsx` |
| course_modal.dfy | `CourseModal` | `CourseModal.jsx` |
| course_management.dfy | `CourseManagement` | `CourseManagement.jsx` |
| audit_log.dfy | `AuditLog` | `AuditLogViewer.jsx` |

### Where the model follows the code rather than the design

- **Preview content key.** The course preview reads the content document from the record's `content` key (`CoursePreview.jsx:40-43`). The editor and the viewer read and write `contentJson`. The model keeps the two keys apart. `CoursePreview.PreviewMissesEditorDocument` shows that a record holding only `contentJson` gives an empty preview.
- **Role matching.** `Login.jsx` matches the role after upper-casing it, while the router and the landing redirect compare it exactly. A session with role `admin` is therefore sent to `/admin/users` at login. There it is not registered, so the catch-all sends it to `/`, and `/` logs it out. This is `Login.LowerCaseAdminIsLoggedOut`.
- **Teacher landing.** Login sends a teacher to `/teacher/my-courses`. That path is not registered (`Login.TeacherMyCoursesUnregistered`), so the teacher lands on `/teacher/courses` through the catch-all and `/` (`Login.TeacherLoginDetour`).
- **Category-name character class.** The pattern contains `\\-`, which admits the backslash. The message describes letters, digits, spaces and hyphens only. The dialog (`CategoryModal.CategoryErrors`, `CategoryModal.CategoryDialog.HandleSaveClick`) uses the pattern as written, so a name such as `a\b` is saved (`CategoryModal.BackslashNameSaved`). The intended class is defined beside it and agrees on every name without a backslash (`CategoryModal.NameCheckIntendedWithoutBackslash`); see Findings.

## Model

| member | source | states |
|---|---|---|
| Common.OrDefault | src/components/NavBar.jsx:12 | `x \|\| fallback` on an optional string: the value when it is truthy (present and non-empty), the fallback otherwise |
| Common.MessageOr | src/components/Teacher/CourseManagement.jsx:84 | `err.response?.data?.message \|\| fallback`: the backend message exactly when it is present and non-empty, otherwise the fallback |
| Common.MessageTextOr | src/components/Auth/Login.jsx:70 | the backend `message`, else its `text`, else the fallback, each taken only when truthy |
| Common.TrimStart | src/components/Auth/Login.jsx:21 | the leading-white-space cut of `trim` is a suffix of the input; the part cut off is all white space and the rest is empty or starts with a non-space |
| Common.TrimEnd | src/components/Auth/Login.jsx:21 | the trailing-white-space cut of `trim` is a prefix of the input; the part cut off is all white space and the rest is empty or ends with a non-space |
| Common.TrimStartEmptyIffBlank | src/components/Auth/Login.jsx:21 | cutting leading white space leaves nothing exactly when the string is all white space |
| Common.TrimEndEmptyIffBlank | src/components/Auth/Login.jsx:21 | cutting trailing white space leaves nothing exactly when the string is all white space |
| Common.TrimStartKeepsLeadingNonSpace | src/components/Auth/Login.jsx:21 | a string that is not blank is still not blank after its leading white space is cut |
| Common.TrimEmptyIffBlank | src/components/Auth/Login.jsx:21 | `!s.trim()` holds exactly when every character is white space, the test of every required-field gate |
| Common.ToUpperAppend | src/components/Admin/AuditLogViewer.jsx:44 | `toUpperCase` distributes over concatenation |
| Common.UpperCharIsUpper | src/components/Admin/AuditLogViewer.jsx:44 | the upper-case form of one character is unchanged by a second upper-casing |
| Common.ToUpperIdempotent | src/components/Admin/AuditLogViewer.jsx:44 | upper-casing twice is upper-casing once |
| Common.ToUpperKeepsUpperAscii | src/components/Auth/Login.jsx:53 | a word of upper-case ASCII letters is its own upper-case form |
| Common.Slice | src/components/Public/CourseCatalog.jsx:61 | `slice(start, end)`: length clamped to the list's end and empty when start exceeds end; each element is the one at `start + k` |
| Common.SliceSplit | src/components/Public/CourseCatalog.jsx:58-62 | two adjacent slices concatenate to the slice spanning both |
| Common.Filter | src/components/Public/CourseCatalog.jsx:41 | `filter` keeps exactly the elements the predicate accepts and is no longer than its input |
| Common.FilterAppend | src/components/Public/CourseCatalog.jsx:41 | filtering a concatenation is concatenating the filtered parts |
| Common.FilterKeepsAll | src/components/Public/CourseCatalog.jsx:41 | a filter every element passes returns the list unchanged |
| Common.FilterKeepsOrder | src/components/Student/MyCourses.jsx:47 | the filtered list is the subsequence of the input at the strictly increasing indices whose element is accepted, and those are all such indices |
| Common.KeptIndicesAscend | src/components/Student/MyCourses.jsx:47 | the accepted positions are in range, strictly increasing, and exactly those whose element passes |
| Common.FilterAtKept | src/components/Student/MyCourses.jsx:47 | the filter's k-th element is the element at the k-th accepted position |
| Common.Decimal | src/components/Student/MyCourses.jsx:74 | a course id written into a path is a non-empty run of decimal digits |
| Common.ParseDecimal | src/components/Public/CoursePreview.jsx:63 | a path segment parses to a number exactly when it is a non-empty run of digits |
| Common.ParseDecimalOfDecimal | src/components/Public/CoursePreview.jsx:63 | a course id written into a path and read back with `Number` is the same id |
| Session.ReadSession | src/utils/security.js:16-30 | the stored session is present exactly when storage holds a readable one; unreadable data counts as no session |
| Session.RoleOf | src/Router.jsx:55-57 | `session?.user?.rol?.roleEnum \|\| ''`: non-empty exactly when every level is present and the role string is non-empty, and then it is that string |
| Session.SessionStore.constructor | src/Router.jsx:55-56 | the store starts with what the browser holds |
| Session.SessionStore.Save | src/components/Auth/Login.jsx:44 | saving stores exactly the new session |
| Session.SessionStore.Remove | src/Router.jsx:49 | removal leaves no stored session |
| Router.ClassifyRole | src/Router.jsx:35-47 | no session is anonymous; otherwise the role string is compared exactly with `ADMIN`, `TEACHER`, `STUDENT`, anything else being unrecognised |
| Router.LookupFound | src/Router.jsx:63-111 | the first matching route decides the screen; nothing found means no route matches |
| Router.LookupAppend | src/Router.jsx:63-111 | looking up in two consecutive route groups is looking in the first, then in the second |
| Router.RouteScreensAvailable | src/Router.jsx:65-106 | every registered route of a session shows a screen available to that session |
| Router.PublicSamples | src/Router.jsx:65-69 | the public paths reach their screens through the public group |
| Router.AuthSamples | src/Router.jsx:72-77 | `/login` and `/register` miss the public group and hit the session-less group |
| Router.AdminSamples | src/Router.jsx:84-90 | the administrator paths miss the public and profile routes and hit the administrator group |
| Router.AdminSamplesMissShared | src/Router.jsx:84-90 | the administrator paths match no public route and not the profile route |
| Router.TeacherSamples | src/Router.jsx:92-98 | the teacher paths miss the public and profile routes and hit the teacher group |
| Router.TeacherCoursesSample | src/Router.jsx:94 | `/teacher/courses` is the first teacher route |
| Router.ContentEditorSample | src/Router.jsx:95 | `/teacher/course/1/content` passes the first teacher route and hits the content editor |
| Router.EnrolledStudentsSample | src/Router.jsx:96 | `/teacher/course/1/students` passes the first two teacher routes and hits the enrolled-students list |
| Router.TeacherSamplesMissShared | src/Router.jsx:92-98 | the teacher paths match no public route and not the profile route |
| Router.StudentSamples | src/Router.jsx:100-106 | the student paths miss the public and profile routes and hit the student group |
| Router.MyCoursesSample | src/Router.jsx:102 | `/student/my-courses` is the first student route |
| Router.ViewerSample | src/Router.jsx:103 | `/student/course/1/view` passes the first student route and hits the viewer |
| Router.TestSample | src/Router.jsx:104 | `/test` passes the first two student routes and hits the test screen |
| Router.StudentSamplesMissShared | src/Router.jsx:100-106 | the student paths match no public route and not the profile route |
| Router.ProfileSample | src/Router.jsx:82 | `/profile` is not public and is registered by the shared private route |
| Router.SamplePathResolves | src/Router.jsx:63-111 | every screen available to a session is reached on its path |
| Router.ExposedIffAvailable | src/Router.jsx:63-111 | some path shows a screen exactly when the screen is available to the session: login and register only without a session, profile with any, each role group only for a role spelled exactly |
| Router.PublicRoutesAlwaysExist | src/Router.jsx:65-69 | `/`, `/courses` and `/course/:courseId/preview` exist for every session |
| Router.LandingRedirect | src/Router.jsx:32-52 | no session shows the catalog; the three exact roles go to their home pages; any other role, the empty one included, clears the session and goes to `/login` |
| Router.LandingTargetsAreRegistered | src/Router.jsx:41-47 | each role's landing target is a registered route for that role |
| Router.NavBarFor | src/Router.jsx:61 | the private bar exactly when a session exists |
| Router.UnknownRoleLogsOut | src/Router.jsx:48-50 | visiting `/` with an unrecognised role empties storage and goes to `/login` |
| Router.UnregisteredGoesHome | src/Router.jsx:111 | a path is redirected to `/` exactly when no route of the session's table matches it, and storage is left as it was |
| Router.UnknownRoleBouncedFromAdmin | src/Router.jsx:82-111 | with an unrecognised role `/admin/users` matches no registered route, so the catch-all sends the browser to `/` with storage unchanged |
| NavBar.GetMenuItems | src/components/NavBar.jsx:19-50 | the pushed items are the role's block of menu entries |
| NavBar.MenuForRoles | src/components/NavBar.jsx:19-50 | the menu is empty exactly when the role is none of the three; administrators, teachers and students each get exactly their own entries, in order |
| NavBar.MenuTargetsRegistered | src/components/NavBar.jsx:23-47 | every menu entry of a session leads to a route registered for that session |
| NavBar.AdminMenuRegistered | src/components/NavBar.jsx:23-29 | each administrator menu entry leads to a route registered for administrators |
| NavBar.StudentMenuRegistered | src/components/NavBar.jsx:39-47 | each student menu entry leads to a route registered for students |
| NavBar.DisplayName | src/components/NavBar.jsx:12 | the greeting is never empty; it is the user's name whenever that name is truthy, and `Usuario` exactly when the name is missing, empty or itself `Usuario` |
| NavBar.Render | src/components/NavBar.jsx:9-17 | nothing is rendered exactly when storage holds no readable session; otherwise the name and the role's menu |
| NavBar.HandleLogout | src/components/NavBar.jsx:52-55 | logout removes the stored session and goes to `/login` |
| NavBar.LogoutReachesLogin | src/components/NavBar.jsx:52-55 | after logout `/login` shows the login screen |
| Login.LoginTarget | src/components/Auth/Login.jsx:53-67 | a target exists exactly when the upper-cased role is `ADMIN`, `STUDENT` or `TEACHER` |
| Login.AdminLoginTarget | src/components/Auth/Login.jsx:54-56 | `ADMIN` and `admin` both go to `/admin/users` |
| Login.UpperCaseAdmin | src/components/Auth/Login.jsx:53 | `admin` upper-cases to `ADMIN` |
| Login.StudentLoginTarget | src/components/Auth/Login.jsx:57-59 | students go to `/test` |
| Login.TeacherLoginTarget | src/components/Auth/Login.jsx:60-62 | teachers go to `/teacher/my-courses` |
| Login.ToastOrNavigation | src/components/Auth/Login.jsx:18-75 | every submission ends with either a toast or a navigation, never both |
| Login.RequestOnlyWithCredentials | src/components/Auth/Login.jsx:21-24 | the request is sent exactly when neither field is blank after trimming; otherwise storage is untouched and only the warning is shown |
| Login.NavigationIffRecognisedRole | src/components/Auth/Login.jsx:31-67 | navigation happens exactly when the reply has data, encryption succeeded and the role is recognised; storage then holds the session, and on a missing or unknown role it is removed again |
| Login.AfterDataFacts | src/components/Auth/Login.jsx:37-66 | once data arrived: a toast exactly when there is no navigation; navigation exactly when encryption succeeded and the role has a target, with the session kept; after encryption without a target storage is emptied; a failed encryption leaves storage as it was |
| Login.AfterRequestFacts | src/components/Auth/Login.jsx:29-71 | once the request was sent: the same facts across every kind of reply, and storage changes only when the reply carried data that was encrypted |
| Login.LoginForm.constructor | src/components/Auth/Login.jsx:12-14 | the form starts empty and idle |
| Login.LoginForm.HandleLogin | src/components/Auth/Login.jsx:18-75 | the handler's request, stored session, toasts and navigation are those of the specified login step; the fields are kept |
| Login.TeacherLoginDetour | src/components/Auth/Login.jsx:61 | a teacher's login target falls through the catch-all to `/`, which sends it on to `/teacher/courses` |
| Login.TeacherMyCoursesUnregistered | src/Router.jsx:92-98 | `/teacher/my-courses` is registered in no route group a teacher sees |
| Login.StudentLoginLandsOnTest | src/components/Auth/Login.jsx:57-59 | a student's login target `/test` renders the test screen |
| Login.LowerCaseAdminIsLoggedOut | src/components/Auth/Login.jsx:53 | a session with role `admin` is sent to `/admin/users`, bounced to `/`, and logged out there |
| Validators.ValidEmailIffPattern | src/components/Profile/UserProfile.jsx:46 | the e-mail predicate holds exactly when the unanchored pattern "non-space run, `@`, non-space run, `.`, non-space" matches somewhere |
| Validators.ValidEmailNotBlank | src/components/Auth/RequestPasswordReset.jsx:18 | an e-mail the pattern accepts is never blank |
| Validators.PatternExamples | src/components/Auth/RegisterTeacher.jsx:27-34 | sample names, phone numbers and passwords fall on the expected side of their patterns |
| Validators.EmailExamples | src/components/Auth/RegisterTeacher.jsx:33 | sample addresses fall on the expected side of the e-mail pattern |
| Validators.CategoryNameBackslashAccepted | src/components/Admin/CategoryModal.jsx:23 | the name pattern as written accepts `a\b`, which the described class rejects |
| Validators.ValidCategoryNameIsWrittenWithoutBackslash | src/components/Admin/CategoryModal.jsx:23-24 | the corrected name check is the written one restricted to names without a backslash |
| Profile.InitialUser | src/components/Profile/UserProfile.jsx:15-18 | the user of the readable stored session, or none |
| Profile.FormOf | src/components/Profile/UserProfile.jsx:29-39 | each form field is the user's value when truthy, otherwise `''` |
| Profile.Merge | src/components/Profile/UserProfile.jsx:71 | the merged user keeps the id, role and status and takes the five form fields |
| Profile.FormOfMerge | src/components/Profile/UserProfile.jsx:71-74 | the form rebuilt from the merged user is the form that was saved |
| Profile.MergeKeepsRole | src/components/Profile/UserProfile.jsx:71-73 | saving the profile changes neither the session's role nor its user id |
| Profile.ProfileErrors | src/components/Profile/UserProfile.jsx:40-48 | each of the five fields has an error exactly when its pattern rejects it, and no other key appears |
| Profile.ProfileErrorsEmptyIff | src/components/Profile/UserProfile.jsx:58-63 | the error map is empty exactly when all five fields are valid |
| Profile.PasswordErrors | src/components/Profile/UserProfile.jsx:85-94 | the new password has an error exactly when it is weak, the confirmation exactly when they differ, each independently |
| Profile.PasswordErrorsEmptyIff | src/components/Profile/UserProfile.jsx:104-109 | the password form passes exactly when the password is strong and confirmed |
| Profile.ProfilePage.constructor | src/components/Profile/UserProfile.jsx:15-39 | the page starts from the stored user, its form filled from that user, or empty without one |
| Profile.ProfilePage.SetProfileField | src/components/Profile/UserProfile.jsx:50-53 | an input change sets exactly the named field |
| Profile.ProfilePage.HandleUpdateProfile | src/components/Profile/UserProfile.jsx:55-82 | the errors are those of the form; the request is sent exactly when they are empty; success stores the merged user in the session and on the page |
| Profile.ProfilePage.SetPasswordField | src/components/Profile/UserProfile.jsx:96-99 | an input change sets exactly the named password field |
| Profile.ProfilePage.HandleChangePassword | src/components/Profile/UserProfile.jsx:101-121 | the request carries the new password only when the form passes; success resets both fields to `''` |
| Register.RequiredFilledIffNotBlank | src/components/Auth/Register.jsx:23-26 | the gate passes exactly when name, last name, e-mail and password are each not blank; the surname may be blank |
| Register.SignUpDoesNotValidate | src/components/Auth/Register.jsx:20-32 | an e-mail and password that the other forms reject still pass this gate |
| Register.RegisterPage.constructor | src/components/Auth/Register.jsx:11-16 | the form starts empty and idle |
| Register.RegisterPage.HandleRegister | src/components/Auth/Register.jsx:20-50 | the request, with role `STUDENT`, is sent exactly when the gate passes; success clears the five fields and goes to `/login`; failure shows the backend message, its text, or the default |
| RegisterTeacher.TeacherErrors | src/components/Auth/RegisterTeacher.jsx:25-37 | each of the six fields has an error exactly when its pattern rejects it, and no other key appears |
| RegisterTeacher.TeacherErrorsEmptyIff | src/components/Auth/RegisterTeacher.jsx:43-48 | the error map is empty exactly when all six fields are valid |
| RegisterTeacher.RegisterTeacherPage.constructor | src/components/Auth/RegisterTeacher.jsx:14-21 | the form starts empty with no errors |
| RegisterTeacher.RegisterTeacherPage.HandleRegister | src/components/Auth/RegisterTeacher.jsx:39-74 | the errors are those of the form; the request, with all six fields and role `TEACHER`, is sent exactly when they are empty; success clears the fields |
| ResetPassword.ResetPasswordPage.constructor | src/components/Auth/ResetPassword.jsx:12-28 | the token is valid exactly when the query holds a non-empty one; without one an error is shown |
| ResetPassword.ResetPasswordPage.HandleReset | src/components/Auth/ResetPassword.jsx:30-57 | without a token nothing happens; a mismatch is reported before weakness; the request `{token, newPassword}` is sent exactly when both checks pass; a failure marks the token invalid and success goes to `/login` |
| RequestReset.RejectedIffInvalid | src/components/Auth/RequestPasswordReset.jsx:18 | the blank-or-malformed gate rejects exactly the addresses the pattern rejects |
| RequestReset.RequestResetPage.constructor | src/components/Auth/RequestPasswordReset.jsx:12-13 | the form starts empty and idle |
| RequestReset.RequestResetPage.HandleRequest | src/components/Auth/RequestPasswordReset.jsx:16-34 | the request is sent exactly when the address is valid; success clears it and failure keeps it |
| CategoryModal.CategoryErrors | src/components/Admin/CategoryModal.jsx:21-32 | the name has an error exactly when the name pattern as written rejects it; the description exactly when it is truthy and its pattern rejects it |
| CategoryModal.EmptyDescriptionAccepted | src/components/Admin/CategoryModal.jsx:26 | an empty or missing description is never an error, so only the name decides |
| CategoryModal.NameCheckIntendedWithoutBackslash | src/components/Admin/CategoryModal.jsx:23-24 | on a name without a backslash the dialog's check agrees with the class the message describes |
| CategoryModal.BackslashNameSaved | src/components/Admin/CategoryModal.jsx:23-24 | a name with a backslash is outside the described class, yet the dialog finds no error in it |
| CategoryModal.MissingNamePasses | src/components/Admin/CategoryModal.jsx:23 | a missing name is tested as the text `undefined`, which the pattern accepts |
| CategoryModal.CategoryDialog.constructor | src/components/Admin/CategoryModal.jsx:10-11 | the dialog starts on the new-category form with no errors |
| CategoryModal.CategoryDialog.Open | src/components/Admin/CategoryModal.jsx:14-19 | opening copies the category in edit mode, or the new-category form, and clears the errors |
| CategoryModal.CategoryDialog.HandleInputChange | src/components/Admin/CategoryModal.jsx:42-45 | an input change sets exactly the named field |
| CategoryModal.CategoryDialog.HandleSaveClick | src/components/Admin/CategoryModal.jsx:34-40 | the errors are those of the form; the form is handed on exactly when they are empty, otherwise a toast is shown |
| UserManagement.ActionWord | src/components/Admin/UserManagement.jsx:63 | `desactivar` exactly for an active user, `habilitar` otherwise |
| UserManagement.UserTable.constructor | src/components/Admin/UserManagement.jsx:14-21 | the table starts empty and loading |
| UserManagement.UserTable.FetchUsers | src/components/Admin/UserManagement.jsx:24-35 | success replaces the list; failure keeps it and shows an error |
| UserManagement.UserTable.FetchLoggedUser | src/components/Admin/UserManagement.jsx:37-42 | success records the logged user; failure shows an error |
| UserManagement.UserTable.HandleEdit | src/components/Admin/UserManagement.jsx:87-90 | the dialog opens on the row's user |
| UserManagement.UserTable.HandleSave | src/components/Admin/UserManagement.jsx:44-55 | success closes the dialog and fetches again; failure leaves both and shows an error |
| UserManagement.UserTable.ToggleUserStatus | src/components/Admin/UserManagement.jsx:57-80 | the own row (the one whose button is disabled at line 129) only warns and sends no request; otherwise an accepted confirmation sends the delete request; success fetches again |
| Courses.CourseImage | src/components/Student/MyCourses.jsx:55 | no image exactly when the URL is not truthy; a URL starting with `http` is kept, any other gets the API base prefix |
| Courses.CourseImageIsAbsolute | src/components/Public/CourseCatalog.jsx:103 | the image rule always yields an `http` URL and is idempotent |
| Courses.EnabledCourses | src/components/Public/CourseCatalog.jsx:41 | exactly the enabled courses are kept |
| Courses.EnabledCoursesKeepOrder | src/components/Public/CourseCatalog.jsx:41 | the enabled courses keep their relative order |
| Courses.RemoveCourse | src/components/Student/MyCourses.jsx:47 | exactly the courses with another id are kept |
| Courses.RemoveCourseKeepsOrder | src/components/Student/MyCourses.jsx:47 | the survivors keep their relative order |
| Courses.RemoveUnlistedCourse | src/components/Student/MyCourses.jsx:47 | removing an id no course has changes nothing |
| Courses.EnrolFailure | src/components/Public/CourseCatalog.jsx:76-78 | a warning whose text is the page's already-enrolled message exactly on status 409 and its generic failure otherwise; the preview page applies the same rule with its own texts |
| CourseContent.LoadedModules | src/components/Teacher/CourseContentEditor.jsx:49-58 | the document is kept exactly when its `contentJson` has an array of modules; otherwise, and on a failed request, it is empty |
| CourseContent.ModuleIds | src/components/Teacher/CourseContentEditor.jsx:82-83 | the list of module ids, position by position |
| CourseContent.RenameModule | src/components/Teacher/CourseContentEditor.jsx:81-85 | same length, ids and lessons; only the modules with the id get the new title |
| CourseContent.RenameMissingIsIdentity | src/components/Teacher/CourseContentEditor.jsx:82-84 | renaming an absent id changes nothing |
| CourseContent.RenameTwice | src/components/Teacher/CourseContentEditor.jsx:82-84 | a second rename overrides the first |
| CourseContent.AppendModule | src/components/Teacher/CourseContentEditor.jsx:87-93 | the list grows by one module at the end, with the id, the title and no lessons |
| CourseContent.RemoveModule | src/components/Teacher/CourseContentEditor.jsx:99-101 | exactly the modules with another id survive |
| CourseContent.RemoveModuleKeepsOrder | src/components/Teacher/CourseContentEditor.jsx:100 | the surviving modules keep their relative order |
| CourseContent.AppendThenRemoveModule | src/components/Teacher/CourseContentEditor.jsx:87-101 | deleting a module just added under a fresh id gives the list back |
| CourseContent.AppendModuleKeepsUnique | src/components/Teacher/CourseContentEditor.jsx:88-93 | a module added under a fresh id keeps module and lesson ids unique |
| CourseContent.RemoveModuleKeepsUnique | src/components/Teacher/CourseContentEditor.jsx:100 | deleting a module keeps the ids unique |
| CourseContent.Overwrite | src/components/Teacher/CourseContentEditor.jsx:139 | `{...les, ...lessonData}` keeps the lesson's id |
| CourseContent.NewLesson | src/components/Teacher/CourseContentEditor.jsx:147 | a new lesson has the fresh id and is unchanged by overwriting it with its own data |
| CourseContent.EditLesson | src/components/Teacher/CourseContentEditor.jsx:135-144 | fails exactly when a target module has no lesson list; otherwise only lessons with the id inside the target modules are overwritten, in place |
| CourseContent.AppendLesson | src/components/Teacher/CourseContentEditor.jsx:146-153 | each target module gets the lesson at the end of its lessons, a missing list counting as empty; other modules are untouched |
| CourseContent.AppendLessonToMissingModule | src/components/Teacher/CourseContentEditor.jsx:148-153 | with no module of the target id, adding a lesson changes nothing |
| CourseContent.RemoveLesson | src/components/Teacher/CourseContentEditor.jsx:161-168 | fails exactly when a target module has no lesson list; otherwise only the target modules lose their lessons with the id |
| CourseContent.RemoveLessonKeepsSiblings | src/components/Teacher/CourseContentEditor.jsx:164 | in a target module exactly the other lessons survive, in order |
| CourseContent.AppendThenRemoveLesson | src/components/Teacher/CourseContentEditor.jsx:146-168 | deleting a lesson just added under a fresh id gives the document back |
| CourseContent.AppendLessonKeepsUnique | src/components/Teacher/CourseContentEditor.jsx:147-153 | a lesson added under a fresh id keeps the ids unique |
| CourseContent.LessonEditsKeepUnique | src/components/Teacher/CourseContentEditor.jsx:135-168 | editing and deleting lessons keep the ids unique |
| ContentEditor.LessonDataOf | src/components/Teacher/CourseContentEditor.jsx:114-116 | the lesson dialog takes title and type as they are, and url and text with `''` for missing ones |
| ContentEditor.ReopenAndSaveLesson | src/components/Teacher/CourseContentEditor.jsx:114-139 | saving an unedited form over a lesson with url and text present changes nothing |
| ContentEditor.Editor.constructor | src/components/Teacher/CourseContentEditor.jsx:27-39 | the editor starts with an empty document, loading, both dialogs closed, and "save all" disabled |
| ContentEditor.Editor.LoadCourseName | src/components/Teacher/CourseContentEditor.jsx:44-46 | success shows the course name; failure shows an error |
| ContentEditor.Editor.LoadContent | src/components/Teacher/CourseContentEditor.jsx:49-59 | the document becomes the normalised loaded one and loading ends, so "save all" is disabled only while saving |
| ContentEditor.Editor.OpenModuleModal | src/components/Teacher/CourseContentEditor.jsx:63-67 | the module dialog opens on the module's title, or on `''` for a new one |
| ContentEditor.Editor.HideModuleModal | src/components/Teacher/CourseContentEditor.jsx:69-73 | the module dialog closes and forgets its module and title |
| ContentEditor.Editor.SetModuleTitle | src/components/Teacher/CourseContentEditor.jsx:263 | the title input sets the dialog's title only |
| ContentEditor.Editor.HandleSaveModule | src/components/Teacher/CourseContentEditor.jsx:75-97 | a blank title only shows an error; otherwise the module is renamed, or a new one appended under the fresh id, and the dialog closes |
| ContentEditor.Editor.HandleDeleteModule | src/components/Teacher/CourseContentEditor.jsx:99-103 | the module goes with its lessons, without confirmation |
| ContentEditor.Editor.OpenLessonModal | src/components/Teacher/CourseContentEditor.jsx:111-119 | the lesson dialog opens on the target module, with the lesson's values or the blank text lesson |
| ContentEditor.Editor.HideLessonModal | src/components/Teacher/CourseContentEditor.jsx:121-125 | the lesson dialog closes and keeps its form values |
| ContentEditor.Editor.SetLessonData | src/components/Teacher/CourseContentEditor.jsx:277-292 | each input sets one key of the lesson form; a type change keeps url and text |
| ContentEditor.Editor.HandleSaveLesson | src/components/Teacher/CourseContentEditor.jsx:127-159 | a blank title only shows an error; otherwise the lesson is edited in place or appended under the fresh id; a target module without lessons stops the edit with nothing changed |
| ContentEditor.Editor.HandleDeleteLesson | src/components/Teacher/CourseContentEditor.jsx:161-171 | the lesson is removed from its module; a module without lessons stops it with nothing changed |
| ContentEditor.Editor.HandleSaveContent | src/components/Teacher/CourseContentEditor.jsx:174-184 | the whole document is sent unchanged; the outcome picks the toast; saving ends, so "save all" is disabled only while loading |
| ContentEditor.Editor.SaveDisabled | src/components/Teacher/CourseContentEditor.jsx:252 | "save all" is disabled while loading or saving; the load and save handlers state its value afterwards |
| YouTube.PathRunEnd | src/components/Student/CourseViewer.jsx:47 | the end of the run of characters that are neither `/` nor white space |
| YouTube.NonSpaceEnd | src/components/Student/CourseViewer.jsx:47 | the end of the run of non-white-space characters |
| YouTube.LastSlashWithId | src/components/Student/CourseViewer.jsx:47 | the last `/` in a range that is followed by eleven id characters, as greedy `\S+\/` backtracks to it |
| YouTube.SegmentsForm | src/components/Student/CourseViewer.jsx:47 | the `youtube.com/seg/…/ID` alternative captures an id just after a `/` |
| YouTube.QueryForm | src/components/Student/CourseViewer.jsx:47 | the `youtube.com/…?v=ID` alternative captures an id after the first `?v=` or `&v=` |
| YouTube.MatchAt | src/components/Student/CourseViewer.jsx:47 | a match at one position starts with `youtube.com/` or `youtu.be/` and captures an id |
| YouTube.FirstMatch | src/components/Student/CourseViewer.jsx:47 | the scan for the leftmost match captures an id |
| YouTube.VideoId | src/components/Student/CourseViewer.jsx:47-48 | an extracted id has eleven characters from `[A-Za-z0-9_-]` and occurs in the URL |
| YouTube.FirstMatchIsLeftmost | src/components/Student/CourseViewer.jsx:47 | the scan finds a match exactly when some position matches, and it returns the leftmost one |
| YouTube.NoYNoId | src/components/Student/CourseViewer.jsx:47 | a URL without the letter `y` has no id |
| YouTube.SkipToY | src/components/Student/CourseViewer.jsx:47 | positions before the next `y` cannot start a match |
| YouTube.IdAtSuffix | src/components/Student/CourseViewer.jsx:47 | an id at the end of a URL is found at its position |
| YouTube.ShortLinkRoundTrip | src/components/Student/CourseViewer.jsx:47 | `https://youtu.be/ID` yields `ID` |
| YouTube.ShortMatchAt | src/components/Student/CourseViewer.jsx:47 | a short link matches at `youtu.be/` and captures the id |
| YouTube.EmbedSegmentsFail | src/components/Student/CourseViewer.jsx:47 | in an embed URL the path-segments alternative fails |
| YouTube.EmbedMatchAt | src/components/Student/CourseViewer.jsx:47 | an embed URL matches at `youtube.com` and captures the id |
| YouTube.EmbedPrefixParts | src/components/Student/CourseViewer.jsx:47 | an embed URL has `youtube.com/` and then `embed/`, not `v/`, at their places |
| YouTube.EmbedUrlRoundTrip | src/components/Student/CourseViewer.jsx:47-55 | the embed URL built from an id yields that id again |
| YouTube.PathRunEndAt | src/components/Student/CourseViewer.jsx:47 | the run ends at the first `/` or white space |
| YouTube.WatchSegmentsFail | src/components/Student/CourseViewer.jsx:47 | in a watch URL the path-segments alternative fails |
| YouTube.WatchQuery | src/components/Student/CourseViewer.jsx:47 | a watch URL's `?v=` alternative captures the id |
| YouTube.WatchMatchAt | src/components/Student/CourseViewer.jsx:47 | a watch URL matches at `youtube.com` and captures the id |
| YouTube.WatchPrefixParts | src/components/Student/CourseViewer.jsx:47 | a watch URL has `youtube.com/` at its place and none of `v/`, `embed/`, `e/` after it |
| YouTube.WatchLinkRoundTrip | src/components/Student/CourseViewer.jsx:47 | `https://www.youtube.com/watch?v=ID` yields `ID` |
| YouTube.PathRunToEnd | src/components/Student/CourseViewer.jsx:47 | a run without `/` or white space reaches the end |
| LessonView.VideoView | src/components/Public/CoursePreview.jsx:79-89 | an embed of the extracted id exactly when one is found, otherwise a link to the URL |
| LessonView.PreviewView | src/components/Public/CoursePreview.jsx:76-95 | video lessons embed or link, a missing URL giving a link without target; text lessons render their HTML; other types are unsupported; rendering never fails |
| LessonView.ViewerView | src/components/Student/CourseViewer.jsx:44-72 | as the preview, except that a video lesson without URL fails to render |
| LessonView.RenderersAgree | src/components/Student/CourseViewer.jsx:44-72 | the preview and the viewer render every lesson alike except the captions and the video lesson without URL |
| LessonView.EmbeddedIdRoundTrip | src/components/Public/CoursePreview.jsx:80-85 | the embedded source yields the same id as the lesson's URL |
| LessonView.WatchLinkIsEmbedded | src/components/Student/CourseViewer.jsx:47-55 | a watch link is embedded by both renderers |
| CourseCatalog.CourseIds | src/components/Public/CourseCatalog.jsx:37-38 | the enrolled set holds exactly the ids of the student's courses, and is empty without a list |
| CourseCatalog.CatalogPage.constructor | src/components/Public/CourseCatalog.jsx:17-28 | the catalog starts empty, loading, on the first page of six; the viewer is a student exactly when the stored session's role is `STUDENT` |
| CourseCatalog.CatalogPage.Load | src/components/Public/CourseCatalog.jsx:30-56 | success keeps the enabled courses, shows the first page and, for a student, records the enrolled ids; any failure only shows an error |
| CourseCatalog.CatalogPage.OnPageChange | src/components/Public/CourseCatalog.jsx:58-62 | the page shows the courses from `first` to `first + rows`, clamped to the list; the course lists, enrolled ids, toasts and loading flag are kept |
| CourseCatalog.CatalogPage.HandleEnroll | src/components/Public/CourseCatalog.jsx:64-80 | without a student session no request is sent and login is shown with the viewer path; success adds exactly the id to the enrolled set, so the course's card shows it enrolled; otherwise the card's state is kept |
| CourseCatalog.CatalogPage.HandleUnenroll | src/components/Public/CourseCatalog.jsx:82-100 | after an accepted confirmation success removes exactly the id from the set, so the card no longer shows it enrolled; failure leaves it |
| CourseCatalog.CatalogPage.IsEnrolled | src/components/Public/CourseCatalog.jsx:104 | a card shows the enrolled state exactly for a student enrolled in that course; the enrol and unenrol handlers state its value afterwards |
| CourseCatalog.EnrolThenUnenrol | src/components/Public/CourseCatalog.jsx:71-97 | a student's successful enrolment in a course followed by a successful unenrolment leaves the enrolled ids as they were and the card not enrolled, with the two success toasts and the list unchanged |
| CourseCatalog.PagesAreConsecutive | src/components/Public/CourseCatalog.jsx:58-62 | two consecutive pages together are the double page |
| CourseCatalog.PageOfEnabledIsEnabled | src/components/Public/CourseCatalog.jsx:41-61 | every course on a page is enabled |
| CoursePreview.PreviewContent | src/components/Public/CoursePreview.jsx:40-43 | the preview takes the modules of the record's `content` key when it holds an array, otherwise none |
| CoursePreview.PreviewModules | src/components/Public/CoursePreview.jsx:103 | at most the first module, and one whenever there is any |
| CoursePreview.RemainingCountBounds | src/components/Public/CoursePreview.jsx:104 | the remaining count is never negative and is positive exactly when there are two modules or more |
| CoursePreview.PreviewThenRemaining | src/components/Public/CoursePreview.jsx:103-104 | the teaser and the remaining modules make up the whole list, the count being their number |
| CoursePreview.PreviewIgnoresContentJson | src/components/Public/CoursePreview.jsx:40-43 | the preview does not depend on `contentJson` |
| CoursePreview.PreviewMissesEditorDocument | src/components/Public/CoursePreview.jsx:40-43 | a document saved by the editor, held in `contentJson`, gives an empty preview |
| CoursePreview.PreviewPage.constructor | src/components/Public/CoursePreview.jsx:18-27 | the preview starts loading with no course; the viewer is a student exactly when the stored session's role is `STUDENT` |
| CoursePreview.PreviewPage.Load | src/components/Public/CoursePreview.jsx:29-50 | both replies succeeding set the course and modules; otherwise an error and navigation to `/` |
| CoursePreview.PreviewPage.HandleEnroll | src/components/Public/CoursePreview.jsx:52-74 | without a student session no request and login with the viewer path; success goes to the viewer; failure shows the status's message |
| CourseViewer.ViewerContent | src/components/Student/CourseViewer.jsx:30-31 | `contentJson` is kept when its modules are truthy, otherwise empty modules |
| CourseViewer.ShownModules | src/components/Student/CourseViewer.jsx:96-113 | the listed modules are non-empty exactly when the content holds a non-empty array |
| CourseViewer.ViewerShowsEditorModules | src/components/Student/CourseViewer.jsx:30-31 | the viewer lists exactly the modules the editor loads |
| CourseViewer.ViewerPage.constructor | src/components/Student/CourseViewer.jsx:15-21 | the viewer starts loading with no course or content |
| CourseViewer.ViewerPage.Load | src/components/Student/CourseViewer.jsx:23-42 | success sets course and content; a content 404 gives empty modules; a course failure shows an error and goes to `/student/my-courses`; after success the course shows as unpublished exactly when the editor would load no module, and after a 404 always |
| CourseViewer.ViewerPage.ShowsUnpublished | src/components/Student/CourseViewer.jsx:96 | the course shows as unpublished exactly when no module would be listed; the load effect states its value afterwards |
| MyCourses.MyCoursesPage.constructor | src/components/Student/MyCourses.jsx:16-17 | the page starts empty and loading |
| MyCourses.MyCoursesPage.FetchCourses | src/components/Student/MyCourses.jsx:25-33 | a null result is no courses; failure keeps the list and shows an error |
| MyCourses.MyCoursesPage.HandleUnenroll | src/components/Student/MyCourses.jsx:35-52 | after an accepted confirmation success drops exactly the courses with the id; failure keeps the list |
| MyCourses.UnenrolLastCourse | src/components/Student/MyCourses.jsx:47 | unenrolling from the only course empties the list |
| MyCourses.LeaveOnlyCourse | src/components/Student/MyCourses.jsx:35-52 | after a successful unenrolment from the only listed course the page shows its empty state |
| MyCourses.MyCoursesPage.ShowsEmptyState | src/components/Student/MyCourses.jsx:101 | the empty state replaces the grid exactly when no course is listed |
| CourseModal.CategoryIdOf | src/components/Teacher/CourseModal.jsx:37 | `course.category?.id \|\| null`: present exactly when the id is present and non-zero |
| CourseModal.Prefill | src/components/Teacher/CourseModal.jsx:31-42 | edit mode copies the course's fields, the category id and the syllabus with defaults; a new course gets the fixed empty form |
| CourseModal.PrefillSyllabusEmpty | src/components/Teacher/CourseModal.jsx:38-41 | the prefilled syllabus is empty exactly when not editing or the course's syllabus is not truthy |
| CourseModal.ApplyInput | src/components/Teacher/CourseModal.jsx:46-48 | an input change sets the named field |
| CourseModal.InputChangesOneField | src/components/Teacher/CourseModal.jsx:46-48 | every other field is unchanged |
| CourseModal.KeyRankFollowsKeyOrder | src/components/Teacher/CourseModal.jsx:58-69 | the field rank is the position in the append order |
| CourseModal.HasKeyAppend | src/components/Teacher/CourseModal.jsx:57-70 | a key is in an appended form exactly when it is in either part |
| CourseModal.InKeyOrderAppend | src/components/Teacher/CourseModal.jsx:57-70 | appending later-ranked fields keeps the order |
| CourseModal.RanksBelowAppend | src/components/Teacher/CourseModal.jsx:57-70 | appending keeps every field below a rank bound |
| CourseModal.OptionalEntryRank | src/components/Teacher/CourseModal.jsx:62-70 | a conditionally appended field is ordered and ranked |
| CourseModal.SaveKeyRanks | src/components/Teacher/CourseModal.jsx:58-69 | the ranks of the seven field names |
| CourseModal.FixedEntriesRanks | src/components/Teacher/CourseModal.jsx:58-61 | the four fixed fields are ordered and come before `categoryId` |
| CourseModal.SaveFormInKeyOrder | src/components/Teacher/CourseModal.jsx:57-70 | the multipart fields are always in the order name, description, duration, teacherId, categoryId, syllabus, file |
| CourseModal.KeysOfFixed | src/components/Teacher/CourseModal.jsx:58-61 | the fixed part holds none of the optional keys |
| CourseModal.SaveFormKeys | src/components/Teacher/CourseModal.jsx:57-70 | the first four fields are always name, description, duration, teacherId; `categoryId` appears exactly when truthy, `syllabus` exactly when non-empty, `file` exactly when one is selected |
| CourseModal.CourseDialog.constructor | src/components/Teacher/CourseModal.jsx:14-15 | the dialog starts on the empty form with no file |
| CourseModal.CourseDialog.Reset | src/components/Teacher/CourseModal.jsx:31-44 | a new course or visibility prefills the form and forgets the file |
| CourseModal.CourseDialog.HandleInputChange | src/components/Teacher/CourseModal.jsx:46-48 | the form changes by the input only |
| CourseModal.CourseDialog.OnFileSelect | src/components/Teacher/CourseModal.jsx:50-53 | the chosen file is remembered |
| CourseModal.CourseDialog.HandleSaveClick | src/components/Teacher/CourseModal.jsx:55-74 | the parent receives the specified multipart field list and `course?.id` |
| CourseManagement.Saved | src/components/Teacher/CourseManagement.jsx:80 | `Curso actualizado.` exactly for an edit, otherwise `Curso creado.` |
| CourseManagement.TeacherCoursesExactly | src/components/Teacher/CourseManagement.jsx:33 | the table holds exactly the teacher's courses, in the listed order |
| CourseManagement.SaveRequest | src/components/Teacher/CourseManagement.jsx:66-69 | an update of the id exactly when it is truthy, otherwise a creation, both carrying the form |
| CourseManagement.SaveUpdatesIffDialogEdits | src/components/Teacher/CourseManagement.jsx:66-69 | the page updates exactly when the dialog was in edit mode |
| CourseManagement.ToggleVerb | src/components/Teacher/CourseManagement.jsx:90 | `deshabilitar` exactly for an enabled course |
| CourseManagement.ImageCellOf | src/components/Teacher/CourseManagement.jsx:107-111 | `Sin imagen` exactly without a truthy URL, otherwise the shared image rule's absolute URL |
| CourseManagement.ManagementPage.constructor | src/components/Teacher/CourseManagement.jsx:19-27 | the table starts empty, loading, with the dialog closed |
| CourseManagement.ManagementPage.FetchCourses | src/components/Teacher/CourseManagement.jsx:29-38 | success shows the teacher's courses; failure keeps the table and shows an error |
| CourseManagement.ManagementPage.Mount | src/components/Teacher/CourseManagement.jsx:40-47 | the courses are fetched exactly when the teacher id is truthy, otherwise an error is shown |
| CourseManagement.ManagementPage.OpenNew | src/components/Teacher/CourseManagement.jsx:49-52 | the dialog opens with no course |
| CourseManagement.ManagementPage.OpenEdit | src/components/Teacher/CourseManagement.jsx:54-61 | success opens the dialog on the fetched course; failure only shows an error |
| CourseManagement.ManagementPage.HideModal | src/components/Teacher/CourseManagement.jsx:63 | the dialog closes |
| CourseManagement.ManagementPage.HandleSave | src/components/Teacher/CourseManagement.jsx:65-86 | the request is the specified one; success closes the dialog and fetches again; failure shows the backend message or `Ocurrió un error.` |
| CourseManagement.ManagementPage.HandleDisable | src/components/Teacher/CourseManagement.jsx:88-101 | after an accepted confirmation the course's state is toggled and the list fetched again |
| AuditLog.Swap | src/components/Admin/AuditLogViewer.jsx:25 | exchanging two records keeps the multiset |
| AuditLog.SortNewestFirst | src/components/Admin/AuditLogViewer.jsx:25 | the array ends newest first and is a permutation of what was fetched |
| AuditLog.SeverityOf | src/components/Admin/AuditLogViewer.jsx:42-58 | success for CREATE and LOGIN_SUCCESS, warning for UPDATE, danger for DELETE and LOGIN_FAILED, info otherwise, after upper-casing |
| AuditLog.TagOf | src/components/Admin/AuditLogViewer.jsx:59 | the tag shows the action as recorded, coloured by its severity |
| AuditLog.SeverityIgnoresCase | src/components/Admin/AuditLogViewer.jsx:44 | an action and its upper-case form get the same colour |
| AuditLog.LowerCaseCreateIsSuccess | src/components/Admin/AuditLogViewer.jsx:44-59 | `create` is coloured as a success but shown in lower case |
| AuditLog.AuditLogPage.constructor | src/components/Admin/AuditLogViewer.jsx:15-16 | the log starts empty and loading |
| AuditLog.AuditLogPage.Load | src/components/Admin/AuditLogViewer.jsx:20-34 | success shows the fetched records newest first, a permutation of them; failure keeps the table and shows an error |

## Left out

- HTTP requests (axios): each call's outcome is an input (`Outcome`), and each request the screen sends is an output value.
- `localStorage` and the AES encryption of `src/utils/security.js`: storage is `Absent`, `Undecryptable` or holds a session record. Decryption failing to null counts as no session. Encryption failing at login is a boolean input.
- React rendering and the PrimeReact widgets: DataTable sorting, filtering and paging; the Paginator's own state; the OrderList drag-and-drop reordering; the Dialog, Toast and ConfirmDialog visuals. Confirmations are an accepted or rejected input, and toasts are a list.
- Re-rendering: handlers are modelled over the current state, not over the possibly stale values a closure captured.
- `Promise.all`, `setTimeout` delays and `window.location`: navigation is an output value, taken at once.
- Route matching: case-insensitive matching and trailing slashes are not modelled. Paths are lists of segments. `encodeURIComponent` in the login redirect is kept opaque.
- UUID v4 generation (RFC 4122, section 4.4): each new id is supplied by the caller. The lemmas that rely on its freshness state it as a precondition; the handlers do not require it.
- `JSON.stringify` and `JSON.parse` of the content document: the document is a datatype, and a `modules` that is no array is one constructor (`NotArray`). The editor keeps only the document's `modules`. Any other key of the loaded document is not modelled. In the program such keys are sent back by a save made before any edit, and dropped by the first edit.
- `Number(courseId)`: route ids are natural numbers, written and read back in decimal.
- `Date` parsing and `toLocaleString` in the audit log: timestamps are integers, larger meaning later.
- AuditLog.SortNewestFirst: sorts by an insertion sort. The engine's own algorithm, and which of two records with equal timestamps comes first, are not modelled.
- `toUpperCase` outside ASCII: modelled for ASCII and for the few characters whose upper case is ASCII only (such as `ı`, `ſ`, `ß` and the `ﬀ`-`ﬆ` ligatures). Every other character is left alone, which cannot change a comparison with an ASCII role or action name.
- FormData stringification: a missing name, description or teacher id is appended as a value that may be absent. The text `undefined` or `null` that the browser would send is not spelled out.
- The category dropdown of the course dialog and its request: it only fills a list of choices.
- The placeholder image URL shown for a course without an image in the catalog and the preview: the model stops at "no image".
- Plumbing files: `EnrolledStudents.jsx`, `EditUserModal.jsx`, `PublicNavbar.jsx`, `main.jsx`, `ToastContext.jsx` and `authService.js`. They fetch and display, or wrap calls, with no logic of their own.
- `CategoryManagement.jsx`: its save and toggle handlers mirror those of the course table and are not modelled. Saving sends an update when the category's id is truthy and a create otherwise, with the matching `actualizada`/`creada` toast. A failure shows the backend message or the fixed `Ocurrió un error.`. The toggle's question says `deshabilitar` or `habilitar` by the category's state. The course table's versions are `CourseManagement.SaveRequest`, `CourseManagement.Saved`, `CourseManagement.ToggleVerb` and `CourseManagement.ManagementPage.HandleSave`. `App.jsx` and the test screen are not part of this model.
- Rendering a course whose `modules` is a non-array value with a `length`, in the viewer: the model treats every non-array `modules` the same way.

## Findings

| source | as written | input that shows it | evidently intended | confidence | as-written member | corrected member |
|---|---|---|---|---|---|---|
| src/components/Admin/CategoryModal.jsx:23-24 | the class `[A-Za-zÁÉÍÓÚáéíóúÑñ0-9 \\-]` admits the backslash as well as letters, digits, spaces and hyphens | the name `a\b` passes validation | only the characters the message names (letters, digits, spaces, hyphens) | high, not executed | CategoryModal.BackslashNameSaved | Validators.ValidCategoryNameIsWrittenWithoutBackslash |
