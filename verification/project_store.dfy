/** The project store: the list of projects with their documents, the
    selected project and the list of selected document ids. Each action
    replaces one of the three fields. */
module ProjectStore {
  import opened Common

  datatype Document = Document(
    id: string,
    name: string,
    kind: Kind,
    formType: Option<string>,
    status: Option<FormStatus>,
    modified: Option<string>,
    project: Option<string>,
    reviewed: Option<bool>)

  datatype Project = Project(id: string, name: string, documents: seq<Document>)

  /** The projects after addDocument: each project with the id gets the
      document appended to its documents; every other project is kept. */
  function WithDocument(projects: seq<Project>, projectId: string, d: Document): (r: seq<Project>)
    ensures |r| == |projects|
    ensures forall i :: 0 <= i < |r| ==>
      r[i] == if projects[i].id == projectId
              then projects[i].(documents := projects[i].documents + [d])
              else projects[i]
  {
    if projects == [] then []
    else [if projects[0].id == projectId
          then projects[0].(documents := projects[0].documents + [d])
          else projects[0]]
         + WithDocument(projects[1..], projectId, d)
  }

  /** Adding a document to a project that does not exist changes nothing. */
  lemma WithDocumentUnknownId(projects: seq<Project>, projectId: string, d: Document)
    requires forall i :: 0 <= i < |projects| ==> projects[i].id != projectId
    ensures WithDocument(projects, projectId, d) == projects
  {
  }

  /** Array.find: the first project with the id, or nothing. */
  function FindProject(projects: seq<Project>, projectId: string): (r: Option<Project>)
    ensures r.None? <==> forall i :: 0 <= i < |projects| ==> projects[i].id != projectId
    ensures r.Some? ==> exists k :: 0 <= k < |projects| && projects[k] == r.value
                          && projectId == r.value.id
                          && forall i :: 0 <= i < k ==> projects[i].id != projectId
  {
    if projects == [] then None
    else if projects[0].id == projectId then Some(projects[0])
    else
      var r := FindProject(projects[1..], projectId);
      if r.Some? then
        ghost var k :| 0 <= k < |projects| - 1 && projects[1..][k] == r.value
                       && forall i :: 0 <= i < k ==> projects[1..][i].id != projectId;
        assert projects[k + 1] == r.value;
        r
      else r
  }

  /** The ids of the documents, in document order. */
  function DocumentIds(docs: seq<Document>): (r: seq<string>)
    ensures |r| == |docs|
    ensures forall i :: 0 <= i < |r| ==> r[i] == docs[i].id
  {
    if docs == [] then [] else [docs[0].id] + DocumentIds(docs[1..])
  }

  /** The selection selectAllDocuments makes: the document ids of the
      first project with the id, or nothing when there is none. */
  function AllDocumentsOf(projects: seq<Project>, projectId: string): seq<string> {
    match FindProject(projects, projectId)
    case None => []
    case Some(p) => DocumentIds(p.documents)
  }

  /** When several projects share an id, selectAllDocuments takes the
      documents of the first one. */
  lemma SelectAllUsesFirstMatch(projects: seq<Project>, projectId: string, k: nat)
    requires k < |projects| && projects[k].id == projectId
    requires forall i :: 0 <= i < k ==> projects[i].id != projectId
    ensures AllDocumentsOf(projects, projectId) == DocumentIds(projects[k].documents)
  {
    var r := FindProject(projects, projectId);
    var k' :| 0 <= k' < |projects| && projects[k'] == r.value && projectId == r.value.id
              && forall i :: 0 <= i < k' ==> projects[i].id != projectId;
    assert k' == k;
  }

  function Unselected(selected: seq<string>, documentId: string): seq<string> {
    Filter(selected, (x: string) => x != documentId)
  }

  /** unselectDocument removes every occurrence of the id and keeps every
      other occurrence of every other id. */
  lemma UnselectRemovesAllOccurrences(selected: seq<string>, documentId: string, x: string)
    ensures multiset(Unselected(selected, documentId))[x] ==
            if x == documentId then 0 else multiset(selected)[x]
  {
    FilterCount(selected, (y: string) => y != documentId, x);
  }

  class ProjectStore {
    var projects: seq<Project>
    var selectedProject: Option<string>
    var selectedDocuments: seq<string>

    constructor ()
      ensures projects == [] && selectedProject == None && selectedDocuments == []
    {
      projects := [];
      selectedProject := None;
      selectedDocuments := [];
    }

    /** addProject: the project goes at the end. */
    method AddProject(project: Project)
      modifies this
      ensures projects == old(projects) + [project]
      ensures selectedProject == old(selectedProject)
      ensures selectedDocuments == old(selectedDocuments)
    {
      projects := projects + [project];
    }

    /** addDocument: the document is appended to every project with the id;
        the order of the projects and every other project are unchanged. */
    method AddDocument(projectId: string, document: Document)
      modifies this
      ensures |projects| == |old(projects)|
      ensures forall i :: 0 <= i < |projects| ==>
        projects[i] == if old(projects)[i].id == projectId
                       then old(projects)[i].(documents := old(projects)[i].documents + [document])
                       else old(projects)[i]
      ensures selectedProject == old(selectedProject)
      ensures selectedDocuments == old(selectedDocuments)
    {
      projects := WithDocument(projects, projectId, document);
    }

    method SelectProject(projectId: Option<string>)
      modifies this
      ensures selectedProject == projectId
      ensures projects == old(projects) && selectedDocuments == old(selectedDocuments)
    {
      selectedProject := projectId;
    }

    /** selectDocument appends the id even when it is already selected. */
    method SelectDocument(documentId: string)
      modifies this
      ensures selectedDocuments == old(selectedDocuments) + [documentId]
      ensures |selectedDocuments| == |old(selectedDocuments)| + 1
      ensures projects == old(projects) && selectedProject == old(selectedProject)
    {
      selectedDocuments := selectedDocuments + [documentId];
    }

    /** unselectDocument removes every occurrence of the id, keeping the
        order of the rest. */
    method UnselectDocument(documentId: string)
      modifies this
      ensures selectedDocuments == Unselected(old(selectedDocuments), documentId)
      ensures documentId !in selectedDocuments
      ensures projects == old(projects) && selectedProject == old(selectedProject)
    {
      selectedDocuments := Unselected(selectedDocuments, documentId);
    }

    /** selectAllDocuments: the selection becomes the document ids of the
        first project with the id, in order, or empty when there is none. */
    method SelectAllDocuments(projectId: string)
      modifies this
      ensures selectedDocuments == AllDocumentsOf(projects, projectId)
      ensures (forall i :: 0 <= i < |projects| ==> projects[i].id != projectId) ==> selectedDocuments == []
      ensures projects == old(projects) && selectedProject == old(selectedProject)
    {
      selectedDocuments := AllDocumentsOf(projects, projectId);
    }

    method UnselectAllDocuments()
      modifies this
      ensures selectedDocuments == []
      ensures projects == old(projects) && selectedProject == old(selectedProject)
    {
      selectedDocuments := [];
    }
  }
}
